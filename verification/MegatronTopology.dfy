/** Parallelism and batch arithmetic of a training configuration (cyber_megatron_training.py). */
module MegatronTopology {
  const EXPERT_COUNT := 512

  datatype Topology = Topology(nodes: nat, gpusPerNode: nat, tensor: nat, pipeline: nat, context: nat, expert: nat)
  {
    predicate InRange() {
      && 1 <= nodes <= 128 && 1 <= gpusPerNode <= 16 && 1 <= tensor <= 64 && 1 <= pipeline <= 60
      && 1 <= context <= 64 && 1 <= expert <= 512
    }

    function WorldSize(): nat {
      nodes * gpusPerNode
    }

    function ModelParallel(): nat {
      tensor * pipeline * context
    }

    function DataParallel(): nat
      requires ModelParallel() > 0
    {
      WorldSize() / ModelParallel()
    }

    /** `topology_is_coherent`. */
    predicate Valid() {
      && InRange()
      && ModelParallel() > 0 && WorldSize() % ModelParallel() == 0
      && DataParallel() % expert == 0
      && EXPERT_COUNT % expert == 0
    }
  }

  datatype Batch = Batch(micro: nat, global: nat)

  /** The last check of the configuration validator. */
  predicate BatchFits(t: Topology, b: Batch) {
    t.Valid() && 1 <= b.micro && 1 <= b.global && b.micro * t.DataParallel() > 0
    && b.global % (b.micro * t.DataParallel()) == 0
  }

  function Accumulation(t: Topology, b: Batch): nat
    requires BatchFits(t, b)
  {
    b.global / (b.micro * t.DataParallel())
  }

  lemma ProductPositive(a: nat, b: nat)
    requires a >= 1 && b >= 1
    ensures a * b >= 1
  {
  }

  /** A divisor that leaves no remainder goes in at least once and gives the whole back. */
  lemma ExactQuotient(whole: nat, part: nat)
    requires whole >= 1 && part >= 1 && whole % part == 0
    ensures whole / part >= 1 && part * (whole / part) == whole
  {
    assert whole == part * (whole / part) + whole % part;
  }

  /**
   A coherent topology uses every GPU exactly: TP * PP * CP * DP is the world size, with at least one data-parallel
   replica, and expert groups divide both the replicas and the experts.
   */
  lemma ParallelismFillsTheWorld(t: Topology)
    requires t.Valid()
    ensures t.ModelParallel() * t.DataParallel() == t.WorldSize()
    ensures t.DataParallel() >= t.expert >= 1
    ensures t.expert * (t.DataParallel() / t.expert) == t.DataParallel()
    ensures t.expert * (EXPERT_COUNT / t.expert) == EXPERT_COUNT
  {
    ProductPositive(t.nodes, t.gpusPerNode);
    ExactQuotient(t.WorldSize(), t.ModelParallel());
    ExactQuotient(t.DataParallel(), t.expert);
    ExactQuotient(EXPERT_COUNT, t.expert);
    AtLeastDivisor(t.expert, t.DataParallel() / t.expert);
  }

  lemma AtLeastDivisor(a: nat, b: nat)
    requires b >= 1
    ensures a * b >= a
  {
  }

  /** The global batch is consumed exactly: micro batch * DP * accumulation steps, with at least one step. */
  lemma AccumulationFillsTheBatch(t: Topology, b: Batch)
    requires BatchFits(t, b)
    ensures b.micro * t.DataParallel() * Accumulation(t, b) == b.global
    ensures Accumulation(t, b) >= 1
  {
    ExactQuotient(b.global, b.micro * t.DataParallel());
  }

  /** A number leaves no remainder exactly when it is a multiple, and then the quotient says of what. */
  lemma DividesIff(whole: nat, part: nat)
    requires part >= 1
    ensures whole % part == 0 <==> exists times: nat :: part * times == whole
    ensures forall times: nat :: part * times == whole ==> times == whole / part
  {
    assert whole == part * (whole / part) + whole % part;
    forall times: nat | part * times == whole ensures times == whole / part && whole % part == 0 {
      OnlyQuotient(whole, part, times);
    }
  }

  lemma OnlyQuotient(whole: nat, part: nat, times: nat)
    requires part >= 1 && part * times == whole
    ensures times == whole / part && whole % part == 0
  {
    var quotient, rest := whole / part, whole % part;
    assert part * times == part * quotient + rest && 0 <= rest < part;
    assert part * (times - quotient) == rest && part * (quotient - times) == -rest;
    if times > quotient {
      AtLeastDivisor(part, times - quotient);
    } else if times < quotient {
      AtLeastDivisor(part, quotient - times);
    }
  }

  /** So many replicas fill the GPUs, in so many expert groups, with so many experts to a rank. */
  predicate Fills(t: Topology, replicas: nat, groups: nat, experts: nat) {
    && t.tensor * t.pipeline * t.context * replicas == t.nodes * t.gpusPerNode
    && t.expert * groups == replicas
    && t.expert * experts == 512
  }

  /**
   Within the ranges of its fields a topology is coherent iff whole replicas fill its GPUs, whole expert groups fill the
   replicas and the experts divide evenly; the number of replicas is then the data-parallel size.
   */
  lemma CoherentIff(t: Topology)
    requires t.InRange()
    ensures t.Valid() <==> exists replicas, groups, experts :: Fills(t, replicas, groups, experts)
    ensures forall replicas, groups, experts :: Fills(t, replicas, groups, experts) ==> t.DataParallel() == replicas
  {
    ProductPositive(t.tensor, t.pipeline);
    ProductPositive(t.tensor * t.pipeline, t.context);
    DividesIff(t.WorldSize(), t.ModelParallel());
    DividesIff(t.DataParallel(), t.expert);
    DividesIff(512, t.expert);
    if t.Valid() {
      assert t.ModelParallel() * t.DataParallel() == t.WorldSize() by {
        ParallelismFillsTheWorld(t);
      }
      var groups: nat :| t.expert * groups == t.DataParallel();
      var experts: nat :| t.expert * experts == 512;
      assert Fills(t, t.DataParallel(), groups, experts);
    }
    forall replicas, groups, experts | Fills(t, replicas, groups, experts)
      ensures t.DataParallel() == replicas && t.Valid()
    {
      assert t.ModelParallel() * replicas == t.WorldSize();
    }
  }

  /** A batch fits a coherent topology iff whole steps of all replicas consume it; Accumulation is their number. */
  lemma BatchFitsIff(t: Topology, b: Batch)
    requires t.Valid() && b.micro >= 1 && b.global >= 1
    ensures BatchFits(t, b) <==> exists steps: nat :: b.micro * t.DataParallel() * steps == b.global
    ensures BatchFits(t, b) ==> b.micro * t.DataParallel() * Accumulation(t, b) == b.global
  {
    ParallelismFillsTheWorld(t);
    ProductPositive(b.micro, t.DataParallel());
    DividesIff(b.global, b.micro * t.DataParallel());
    if BatchFits(t, b) {
      AccumulationFillsTheBatch(t, b);
    }
  }
}
