/** What the lists of one tick hold, said of its components (attack_world_lines.py). */
module WorldLineTurns {
  import opened Ordering
  import opened AttackProgression
  import opened WorldLineGroups
  import opened WorldLineTick
  import opened WorldLineFacts
  import opened WorldLineAdvance

  // ----- linked components

  /** Whatever is connected to a linked component is linked. */
  lemma LinkedTogether(x: TickContext, n: Node, m: Node)
    requires x.Valid() && x.IsNode(n) && Has(x.Cohort(n), m)
    ensures n in x.Graph() <==> m in x.Graph()
  {
    x.SelfInCohort(n);
    CohortOfMember(x, n, m);
    hide x.Cohort;
    if n !in x.Graph() {
      UnlinkedIsAlone(x, n);
    }
    if m !in x.Graph() {
      UnlinkedIsAlone(x, m);
    }
  }

  /** The start of the group that holds a linked current component. */
  lemma StartOf(x: TickContext, c: nat) returns (s: nat)
    requires x.Valid() && c < |x.step.current| && Curr(c) in x.Graph()
    ensures IsStart(x, s) && c in x.Cohort(Curr(s)).curr && x.Cohort(Curr(s)) == x.Cohort(Curr(c))
  {
    x.SelfInCohort(Curr(c));
    s := MinOf(x.Cohort(Curr(c)).curr);
    assert Has(x.Cohort(Curr(c)), Curr(s));
    CohortOfMember(x, Curr(c), Curr(s));
    LinkedTogether(x, Curr(c), Curr(s));
    hide x.Cohort;
  }

  /** Different starts have disjoint groups. */
  lemma StartsAreApart(x: TickContext, s: nat, t: nat, n: Node)
    requires x.Valid() && IsStart(x, s) && IsStart(x, t)
    requires Has(x.Cohort(Curr(s)), n) && Has(x.Cohort(Curr(t)), n)
    ensures s == t
  {
    x.SelfInCohort(Curr(s));
    x.SelfInCohort(Curr(t));
    CohortOfMember(x, Curr(s), n);
    CohortOfMember(x, Curr(t), n);
    hide x.Cohort;
    assert t in x.Cohort(Curr(s)).curr && s in x.Cohort(Curr(t)).curr;
  }

  lemma StartsMeaning(x: TickContext)
    requires x.Valid()
    ensures StrictlyIncreasing(Starts(x)) && forall c :: c in Starts(x) <==> IsStart(x, c)
    ensures forall k :: 0 <= k < |Starts(x)| ==> IsStart(x, Starts(x)[k])
  {
    hide SortedIds, x.Graph, x.Cohort;
  }

  // ----- the order of the current components

  ghost predicate CurrDisjoint(groups: seq<Group>) {
    forall i, j :: 0 <= i < j < |groups| ==> groups[i].curr !! groups[j].curr
  }

  ghost predicate InCurr(groups: seq<Group>, c: nat) {
    exists k :: 0 <= k < |groups| && c in groups[k].curr
  }

  lemma {:induction false} FlatMeaning(groups: seq<Group>)
    ensures forall c :: c in Flat(groups) <==> InCurr(groups, c)
    ensures CurrDisjoint(groups) ==> NoDuplicates(Flat(groups))
  {
    hide SortedIds;
    if groups != [] {
      var init, last := groups[..|groups| - 1], groups[|groups| - 1];
      FlatMeaning(init);
      assert groups == init + [last];
      forall c ensures c in Flat(groups) <==> InCurr(groups, c) {
        if k :| 0 <= k < |init| && c in init[k].curr {
          assert groups[k] == init[k];
        }
        assert c in last.curr ==> c in groups[|init|].curr;
      }
      if CurrDisjoint(groups) {
        JoinDistinct(Flat(init), SortedIds(last.curr));
      }
    }
  }

  lemma JoinDistinct<T(!new)>(a: seq<T>, b: seq<T>)
    requires NoDuplicates(a) && NoDuplicates(b) && forall x :: x in a ==> x !in b
    ensures NoDuplicates(a + b)
  {
    forall i, j | 0 <= i < |a| && 0 <= j < |b| ensures a[i] != b[j] {
      assert a[i] in a && b[j] in b;
    }
  }

  lemma GroupsHoldLinked(x: TickContext, c: nat)
    requires x.Valid()
    ensures InCurr(GroupsOf(x), c) <==> c < |x.step.current| && Curr(c) in x.Graph()
  {
    StartsMeaning(x);
    hide x.Cohort, SortedIds, Starts;
    var groups := GroupsOf(x);
    if k :| 0 <= k < |groups| && c in groups[k].curr {
      assert IsStart(x, Starts(x)[k]) && Has(x.Cohort(Curr(Starts(x)[k])), Curr(c));
      CohortOfMember(x, Curr(Starts(x)[k]), Curr(c));
      LinkedTogether(x, Curr(Starts(x)[k]), Curr(c));
    }
    if c < |x.step.current| && Curr(c) in x.Graph() {
      var s := StartOf(x, c);
      var k :| 0 <= k < |Starts(x)| && Starts(x)[k] == s;
      assert c in groups[k].curr;
    }
  }

  lemma GroupsAreDisjoint(x: TickContext)
    requires x.Valid()
    ensures CurrDisjoint(GroupsOf(x))
  {
    StartsMeaning(x);
    hide x.Cohort, SortedIds, Starts, IsStart;
    var groups, starts := GroupsOf(x), Starts(x);
    forall i, j | 0 <= i < j < |groups| ensures groups[i].curr !! groups[j].curr {
      forall c | c in groups[i].curr ensures c !in groups[j].curr {
        if c in groups[j].curr {
          assert Has(groups[i], Curr(c)) && Has(groups[j], Curr(c));
          StartsAreApart(x, starts[i], starts[j], Curr(c));
        }
      }
    }
  }

  /** Every current component is met exactly once. */
  lemma OrderHoldsEach(x: TickContext)
    requires x.Valid()
    ensures NoDuplicates(Order(x)) && forall c: nat :: c in Order(x) <==> c < |x.step.current|
  {
    hide SortedIds, GroupsOf, x.Graph;
    var flat, free := Flat(GroupsOf(x)), SortedIds(FreeCurr(x, |x.step.current|));
    FlatMeaning(GroupsOf(x));
    GroupsAreDisjoint(x);
    forall c: nat ensures c in flat <==> c < |x.step.current| && Curr(c) in x.Graph() {
      GroupsHoldLinked(x, c);
    }
    JoinDistinct(flat, free);
  }

  lemma OrderInRange(x: TickContext)
    requires x.Valid()
    ensures CurrInRange(x, Order(x))
  {
    OrderHoldsEach(x);
    hide Order, x.Valid;
    assert forall k :: 0 <= k < |Order(x)| ==> Order(x)[k] in Order(x);
  }

  // ----- the turns of the cohorts

  lemma InTag(indices: seq<nat>, current: bool, n: Node)
    ensures n in Tag(indices, current) <==> n.index in indices && n.Curr? == current
  {
    var tagged := Tag(indices, current);
    if n in tagged {
      var k :| 0 <= k < |tagged| && tagged[k] == n;
      assert indices[k] in indices;
    }
    if n.index in indices && n.Curr? == current {
      var k :| 0 <= k < |indices| && indices[k] == n.index;
      assert tagged[k] == n;
    }
  }

  /** A turn is a start of a group or a component without a link. */
  lemma TurnsMeaning(x: TickContext, n: Node)
    requires x.Valid()
    ensures n in Turns(x) <==> x.IsNode(n) && (if n in x.Graph() then n.Curr? && IsStart(x, n.index) else true)
  {
    StartsMeaning(x);
    InTag(Starts(x), true, n);
    InTag(SortedIds(FreePrev(x, |x.step.previous|)), false, n);
    InTag(SortedIds(FreeCurr(x, |x.step.current|)), true, n);
    hide SortedIds, Starts, x.Graph, x.Cohort, Tag;
  }

  lemma TurnOfNode(x: TickContext, n: Node) returns (m: Node)
    requires x.Valid() && x.IsNode(n)
    ensures m in Turns(x) && x.IsNode(m) && Has(x.Cohort(n), m) && x.TransitionOf(n) == x.TransitionOf(m)
  {
    x.SelfInCohort(n);
    if n in x.Graph() {
      LinkedHasBothSides(x, n);
      var c := MinOf(x.Cohort(n).curr);
      assert Has(x.Cohort(n), Curr(c));
      CohortOfMember(x, n, Curr(c));
      LinkedTogether(x, n, Curr(c));
      m := Curr(c);
    } else {
      m := n;
    }
    TurnsMeaning(x, m);
    SameCohortSameTransition(x, n, m);
  }

  /** Two turns of the same cohort are the same. */
  lemma TurnsAreApart(x: TickContext, n: Node, m: Node)
    requires x.Valid() && n in Turns(x) && m in Turns(x) && x.IsNode(n) && Has(x.Cohort(n), m)
    ensures n == m
  {
    TurnsMeaning(x, n);
    TurnsMeaning(x, m);
    LinkedTogether(x, n, m);
    x.SelfInCohort(m);
    if n in x.Graph() {
      StartsAreApart(x, n.index, m.index, m);
    } else {
      UnlinkedIsAlone(x, n);
    }
  }

  lemma TagKeepsDistinct(indices: seq<nat>, current: bool)
    requires StrictlyIncreasing(indices)
    ensures NoDuplicates(Tag(indices, current))
  {
  }

  lemma TurnsAreDistinct(x: TickContext)
    requires x.Valid()
    ensures NoDuplicates(Turns(x))
  {
    StartsMeaning(x);
    hide SortedIds, Starts, x.Graph, x.Cohort, Tag, IsStart;
    var prev, curr := SortedIds(FreePrev(x, |x.step.previous|)), SortedIds(FreeCurr(x, |x.step.current|));
    TagKeepsDistinct(Starts(x), true);
    TagKeepsDistinct(prev, false);
    TagKeepsDistinct(curr, true);
    forall n | n in Tag(Starts(x), true) ensures n !in Tag(prev, false) && n !in Tag(curr, true) {
      StartIsNotFree(x, n, prev, curr);
    }
    forall n | n in Tag(prev, false) ensures n !in Tag(curr, true) {
      InTag(prev, false, n);
      InTag(curr, true, n);
    }
    JoinDistinct(Tag(Starts(x), true), Tag(prev, false));
    JoinDistinct(Tag(Starts(x), true) + Tag(prev, false), Tag(curr, true));
  }

  lemma StartIsNotFree(x: TickContext, n: Node, prev: seq<nat>, curr: seq<nat>)
    requires x.Valid() && n in Tag(Starts(x), true) && curr == SortedIds(FreeCurr(x, |x.step.current|))
    ensures n !in Tag(prev, false) && n !in Tag(curr, true)
  {
    StartsMeaning(x);
    InTag(Starts(x), true, n);
    InTag(prev, false, n);
    InTag(curr, true, n);
    hide Tag, x.Graph, x.Cohort, Starts;
  }

  // ----- the lists

  lemma InObservations(x: TickContext, order: seq<nat>, o: Observation)
    requires x.Valid() && CurrInRange(x, order)
    ensures o in ObservationsOf(x, order) <==> exists k :: 0 <= k < |order| && o == x.ObservationOf(order[k])
  {
    hide x.ObservationOf, x.Valid;
    var os := ObservationsOf(x, order);
    assert forall k :: 0 <= k < |order| ==> os[k] == x.ObservationOf(order[k]);
  }

  lemma InTransitions(x: TickContext, nodes: seq<Node>, r: Transition)
    requires x.Valid() && AreNodes(x, nodes)
    ensures r in TransitionsOf(x, nodes) <==> exists k :: 0 <= k < |nodes| && r == x.TransitionOf(nodes[k])
  {
    hide x.TransitionOf, x.Valid, x.IsNode;
    var rs := TransitionsOf(x, nodes);
    assert forall k :: 0 <= k < |nodes| ==> rs[k] == x.TransitionOf(nodes[k]);
  }

  ghost predicate IsObservationOf(x: TickContext, o: Observation)
    requires x.Valid()
  {
    exists c: nat :: c < |x.step.current| && o == x.ObservationOf(c)
  }

  ghost predicate IsTransitionOf(x: TickContext, r: Transition)
    requires x.Valid()
  {
    exists n :: x.IsNode(n) && r == x.TransitionOf(n)
  }

  lemma ObservedAt(x: TickContext, order: seq<nat>, c: nat, o: Observation)
    requires x.Valid() && CurrInRange(x, order) && c in order && o == x.ObservationOf(c)
    ensures o in ObservationsOf(x, order)
  {
    hide x.ObservationOf, x.Valid;
    InObservations(x, order, o);
    var k :| 0 <= k < |order| && order[k] == c;
  }

  /** The tick observes each current component, and nothing else. */
  lemma TickObservations(x: TickContext, o: Observation)
    requires x.Valid() && CurrInRange(x, Order(x))
    ensures o in ObservationsOf(x, Order(x)) <==> IsObservationOf(x, o)
    ensures IsObservationOf(x, o) ==> o.tick == x.tick
  {
    hide Order, x.NextLine, ObservationsOf, x.Valid;
    if o in ObservationsOf(x, Order(x)) {
      InObservations(x, Order(x), o);
    }
    if IsObservationOf(x, o) {
      var c: nat :| c < |x.step.current| && o == x.ObservationOf(c);
      hide x.ObservationOf;
      OrderHoldsEach(x);
      ObservedAt(x, Order(x), c, o);
    }
  }

  lemma TurnsAreNodes(x: TickContext)
    requires x.Valid()
    ensures AreNodes(x, Turns(x))
  {
    hide Turns, x.Graph, x.Cohort;
    forall k | 0 <= k < |Turns(x)| ensures x.IsNode(Turns(x)[k]) {
      TurnsMeaning(x, Turns(x)[k]);
    }
  }

  lemma ToTick(x: TickContext, n: Node)
    requires x.Valid() && x.IsNode(n)
    ensures x.TransitionOf(n).toTick == x.tick
  {
    hide x.Cohort, x.NextLine, x.KindOf;
  }

  /** The tick has the transition of each cohort, and no others. */
  lemma TickTransitions(x: TickContext, r: Transition)
    requires x.Valid() && AreNodes(x, Turns(x))
    ensures r in TransitionsOf(x, Turns(x)) <==> IsTransitionOf(x, r)
    ensures IsTransitionOf(x, r) ==> r.toTick == x.tick
  {
    hide Turns, x.Cohort, x.TransitionOf, TransitionsOf, x.Valid;
    InTransitions(x, Turns(x), r);
    if k :| 0 <= k < |Turns(x)| && r == x.TransitionOf(Turns(x)[k]) {
      ToTick(x, Turns(x)[k]);
    }
    if n :| x.IsNode(n) && r == x.TransitionOf(n) {
      var m := TurnOfNode(x, n);
      var k :| 0 <= k < |Turns(x)| && Turns(x)[k] == m;
    }
  }

  /** Components are told apart by their entities, so no observation of a tick is listed twice. */
  lemma ObservationsAreDistinct(x: TickContext)
    requires x.Valid() && CurrInRange(x, Order(x)) && AllDisjoint(x.step.current) && Substantial(x.step.current)
    ensures NoDuplicates(ObservationsOf(x, Order(x)))
  {
    OrderHoldsEach(x);
    hide Order, x.NextLine;
    var os, order := ObservationsOf(x, Order(x)), Order(x);
    forall i, j | 0 <= i < j < |os| ensures os[i] != os[j] {
      assert Disjoint(x.step.current[order[i]], x.step.current[order[j]]);
    }
  }

  /** Equal transitions belong to the same cohort when components have different identifiers. */
  lemma TransitionIdentifiesCohort(x: TickContext, n: Node, m: Node)
    requires x.Valid() && x.Identified() && x.IsNode(n) && x.IsNode(m) && x.TransitionOf(n) == x.TransitionOf(m)
    ensures Has(x.Cohort(n), m)
  {
    x.SelfInCohort(m);
    MembersOfTransition(x, m);
    match m
    case Prev(p) =>
      IdsOfMeaning(x.step.previous, x.Cohort(m).prev);
      MemberByPredecessor(x, n, p);
    case Curr(c) =>
      IdsOfMeaning(x.step.current, x.Cohort(m).curr);
      MemberBySuccessor(x, n, c);
  }

  lemma TransitionsAreDistinct(x: TickContext)
    requires x.Valid() && x.Identified() && AreNodes(x, Turns(x))
    ensures NoDuplicates(TransitionsOf(x, Turns(x)))
  {
    TurnsAreDistinct(x);
    hide Turns, x.TransitionOf, x.Cohort;
    var rs, turns := TransitionsOf(x, Turns(x)), Turns(x);
    forall i, j | 0 <= i < j < |rs| ensures rs[i] != rs[j] {
      if rs[i] == rs[j] {
        TransitionIdentifiesCohort(x, turns[i], turns[j]);
        TurnsAreApart(x, turns[i], turns[j]);
      }
    }
  }

  // ----- the dictionary

  ghost predicate SameId(x: TickContext, c: nat, d: nat) {
    c < |x.step.current| && d < |x.step.current| && x.step.current[c].componentId == x.step.current[d].componentId
  }

  /** Component d is the last of the list with the identifier of component c. */
  ghost predicate IsLast(x: TickContext, order: seq<nat>, c: nat, d: nat) {
    exists k :: 0 <= k < |order| && order[k] == d && SameId(x, c, d)
                && forall j :: k < j < |order| ==> !SameId(x, c, order[j])
  }

  /** The dictionary holds, for the identifier of each component, the line of the last one with that identifier. */
  lemma {:induction false} RememberedIsLast(x: TickContext, lines0: map<Id, Id>, order: seq<nat>, c: nat)
    requires x.Valid() && CurrInRange(x, order) && c in order
    ensures c < |x.step.current| && x.step.current[c].componentId in Remembered(x, lines0, order)
    ensures exists d :: IsLast(x, order, c, d)
                        && Remembered(x, lines0, order)[x.step.current[c].componentId] == x.NextLine(d)
  {
    hide x.NextLine, x.Valid;
    var n := |order| - 1;
    var init, last := order[..n], order[n];
    assert order == init + [last];
    if SameId(x, c, last) {
      assert IsLast(x, order, c, last);
    } else {
      assert c in init;
      RememberedIsLast(x, lines0, init, c);
      var d: nat :| IsLast(x, init, c, d)
                    && Remembered(x, lines0, init)[x.step.current[c].componentId] == x.NextLine(d);
      LastOfLonger(x, init, last, c, d);
    }
  }

  lemma LastOfLonger(x: TickContext, init: seq<nat>, last: nat, c: nat, d: nat)
    requires IsLast(x, init, c, d) && !SameId(x, c, last)
    ensures IsLast(x, init + [last], c, d)
  {
    hide SameId;
    var k :| 0 <= k < |init| && init[k] == d && SameId(x, c, d)
             && forall j :: k < j < |init| ==> !SameId(x, c, init[j]);
    assert (init + [last])[k] == d;
  }

  /** With different identifiers each component is the last one of its own. */
  lemma RememberedIsOwn(x: TickContext, lines0: map<Id, Id>, order: seq<nat>, c: nat)
    requires x.Valid() && x.Identified() && CurrInRange(x, order) && c in order
    ensures c < |x.step.current| && x.step.current[c].componentId in Remembered(x, lines0, order)
    ensures Remembered(x, lines0, order)[x.step.current[c].componentId] == x.NextLine(c)
  {
    RememberedIsLast(x, lines0, order, c);
    hide x.NextLine, x.Valid, Remembered;
    var d: nat :| IsLast(x, order, c, d)
                  && Remembered(x, lines0, order)[x.step.current[c].componentId] == x.NextLine(d);
    assert c != d ==> Different(x.step.current[c], x.step.current[d]);
  }
}
