/**
 The texts that component and line identifiers are hashed from, and when two components of a graph have the same
 one (attack_progression.py, attack_world_lines.py).
 */
module ComponentTexts {
  import opened Ordering
  import opened StateGraph
  import opened AttackComponents
  import opened StageScoring
  import opened AttackProgression
  import opened WorldLineTick

  // ----- identifiers as texts

  type Spelling = Id -> string

  /** The order of `str`. */
  predicate TextBefore(a: string, b: string) {
    b != [] && (a == [] || a[0] < b[0] || (a[0] == b[0] && TextBefore(a[1..], b[1..])))
  }

  ghost function Names(g: Graph): set<Id> {
    EntityIds(g) + RelationIds(g.relations)
  }

  /** The identifiers of the graph stand for texts, in the order of the texts. */
  ghost predicate Spells(spell: Spelling, g: Graph) {
    forall x, y :: x in Names(g) && y in Names(g) && x < y ==> TextBefore(spell(x), spell(y))
  }

  lemma {:induction false} BeforeIsStrict(a: string)
    ensures !TextBefore(a, a)
  {
    if a != [] {
      BeforeIsStrict(a[1..]);
    }
  }

  lemma SpellingsDiffer(spell: Spelling, g: Graph, x: Id, y: Id)
    requires Spells(spell, g) && x in Names(g) && y in Names(g) && spell(x) == spell(y)
    ensures x == y
  {
    BeforeIsStrict(spell(x));
  }

  // ----- joined texts

  /** `",".join(texts)`. */
  function JoinTexts(texts: seq<string>): string {
    if texts == [] then "" else if |texts| == 1 then texts[0] else texts[0] + "," + JoinTexts(texts[1..])
  }

  function Spelled(spell: Spelling, ids: seq<Id>): seq<string> {
    seq(|ids|, i requires 0 <= i < |ids| => spell(ids[i]))
  }

  predicate Free(text: string, separator: char) {
    separator !in text
  }

  ghost predicate AllFree(texts: seq<string>, separator: char) {
    forall i :: 0 <= i < |texts| ==> Free(texts[i], separator)
  }

  lemma {:induction false} JoinIsFree(texts: seq<string>, separator: char)
    requires AllFree(texts, separator) && separator != ','
    ensures Free(JoinTexts(texts), separator)
  {
    if |texts| > 1 {
      assert AllFree(texts[1..], separator) by {
        assert forall i :: 0 <= i < |texts| - 1 ==> texts[1..][i] == texts[i + 1];
      }
      JoinIsFree(texts[1..], separator);
    }
  }

  /** A text cut at two places by the same separator has it inside both longer parts. */
  lemma SeparatorInside(a: string, b: string, c: string, d: string, separator: char)
    requires a + [separator] + b == c + [separator] + d && |a| < |c|
    ensures separator in c && separator in b
  {
    var text := a + [separator] + b;
    assert text[|a|] == separator && text[|c|] == separator;
    assert c[|a|] == text[|a|] && b[|c| - |a| - 1] == text[|c|];
  }

  /** A text is cut by a separator in one way only if both first parts, or both last parts, are free of it. */
  lemma SplitOnce(a: string, b: string, c: string, d: string, separator: char)
    requires (Free(a, separator) && Free(c, separator)) || (Free(b, separator) && Free(d, separator))
    requires a + [separator] + b == c + [separator] + d
    ensures a == c && b == d
  {
    if |a| < |c| {
      SeparatorInside(a, b, c, d, separator);
    } else if |c| < |a| {
      SeparatorInside(c, d, a, b, separator);
    } else {
      var text := a + [separator] + b;
      assert a == text[..|a|] && c == text[..|c|] && b == text[|a| + 1..] && d == text[|c| + 1..];
    }
  }

  lemma JoinedWithCommas(texts: seq<string>)
    requires texts != [] && AllFree(texts, ',')
    ensures ',' in JoinTexts(texts) <==> |texts| > 1
  {
    if |texts| > 1 {
      assert JoinTexts(texts)[|texts[0]|] == ',';
    } else {
      assert Free(texts[0], ',');
    }
  }

  /** Joining loses nothing when no text has a comma. */
  lemma {:induction false} JoinIsInjective(a: seq<string>, b: seq<string>)
    requires a != [] && b != [] && AllFree(a, ',') && AllFree(b, ',') && JoinTexts(a) == JoinTexts(b)
    ensures a == b
  {
    JoinedWithCommas(a);
    JoinedWithCommas(b);
    assert a == [a[0]] + a[1..] && b == [b[0]] + b[1..];
    if |a| > 1 {
      assert forall i :: 0 <= i < |a| - 1 ==> a[1..][i] == a[i + 1];
      assert forall i :: 0 <= i < |b| - 1 ==> b[1..][i] == b[i + 1];
      SplitOnce(a[0], JoinTexts(a[1..]), b[0], JoinTexts(b[1..]), ',');
      JoinIsInjective(a[1..], b[1..]);
    }
  }

  // ----- the text of a component

  /** The payload of `_component_id`. */
  function ComponentText(spell: Spelling, entities: set<Id>, relations: set<Id>): string {
    JoinTexts(Spelled(spell, SortedIds(entities))) + "|" + JoinTexts(Spelled(spell, SortedIds(relations)))
  }

  type TextHash = string -> Id

  /** No two texts have the same SHA-256 prefix. */
  ghost predicate NoCollision(hash: TextHash) {
    forall a, b :: hash(a) == hash(b) ==> a == b
  }

  /** `_component_id`. */
  function IdentifierOf(spell: Spelling, hash: TextHash): ComponentDigest {
    (entities: set<Id>, relations: set<Id>) => hash(ComponentText(spell, entities, relations))
  }

  ghost function TextAt(g: Graph, spell: Spelling, i: nat): string
    requires i < |ActiveComponents(g)|
  {
    var part := ActiveComponents(g)[i];
    ComponentText(spell, part, RelationIds(ActiveRelations(ComponentSubgraph(g, part))))
  }

  /** No two components of the graph have the same text. */
  ghost predicate TextsDiffer(g: Graph, spell: Spelling) {
    forall i, j :: 0 <= i < |ActiveComponents(g)| && 0 <= j < |ActiveComponents(g)| && i != j ==>
                     TextAt(g, spell, i) != TextAt(g, spell, j)
  }

  lemma ReportIdentifier(g: Graph, spell: Spelling, hash: TextHash, i: nat)
    requires i < |ActiveComponents(g)|
    ensures ComponentReportOf(g, ActiveComponents(g)[i], IdentifierOf(spell, hash)).componentId
            == hash(TextAt(g, spell, i))
  {
    hide ActiveComponents, ComponentText, StageRows, ActiveRelations, ComponentSubgraph;
  }

  /**
   Two components of a graph get the same identifier exactly when their joined texts are equal; nothing is
   assumed but that the hash does not collide, and equal texts collide whatever the hash is.
   */
  lemma IdentifiersDifferIff(g: Graph, spell: Spelling, hash: TextHash)
    requires Valid(g)
    ensures DistinctIds(Components(g, IdentifierOf(spell, hash))) ==> TextsDiffer(g, spell)
    ensures NoCollision(hash) && TextsDiffer(g, spell) ==> DistinctIds(Components(g, IdentifierOf(spell, hash)))
  {
    hide ActiveComponents, ComponentReportOf, ComponentSubgraph, TextAt, Valid, IdentifierOf;
    var digest := IdentifierOf(spell, hash);
    var rs := ReportsOf(g, ActiveComponents(g), digest);
    ReportsAreApart(g, digest);
    SortKeepsIds(rs);
    forall i: nat | i < |rs| ensures rs[i].componentId == hash(TextAt(g, spell, i)) {
      ReportIdentifier(g, spell, hash, i);
    }
    if DistinctIds(rs) {
      forall i, j | 0 <= i < |rs| && 0 <= j < |rs| && i != j ensures TextAt(g, spell, i) != TextAt(g, spell, j) {
        assert Different(rs[i], rs[j]);
      }
    }
    if NoCollision(hash) && TextsDiffer(g, spell) {
      forall i, j | 0 <= i < |rs| && 0 <= j < |rs| && i != j ensures Different(rs[i], rs[j]) {
        assert TextAt(g, spell, i) != TextAt(g, spell, j);
      }
    }
  }

  // ----- when the texts differ

  /** No text has a character that joins texts. */
  ghost predicate Clean(spell: Spelling, ids: set<Id>) {
    forall id :: id in ids ==> Free(spell(id), ',') && Free(spell(id), '|')
  }

  lemma CleanIsFree(spell: Spelling, ids: set<Id>)
    requires Clean(spell, ids)
    ensures AllFree(Spelled(spell, SortedIds(ids)), ',') && Free(JoinTexts(Spelled(spell, SortedIds(ids))), '|')
  {
    hide SortedIds, JoinTexts;
    assert AllFree(Spelled(spell, SortedIds(ids)), '|');
    JoinIsFree(Spelled(spell, SortedIds(ids)), '|');
  }

  /** Clean lists of identifiers that are joined alike are alike. */
  lemma JoinedAlike(g: Graph, spell: Spelling, a: set<Id>, b: set<Id>)
    requires Spells(spell, g) && a <= Names(g) && b <= Names(g) && a != {} && b != {} && a !! b
    requires Clean(spell, a) && Clean(spell, b)
    ensures JoinTexts(Spelled(spell, SortedIds(a))) != JoinTexts(Spelled(spell, SortedIds(b)))
  {
    hide SortedIds, JoinTexts, Names, Spells;
    var s, t := SortedIds(a), SortedIds(b);
    CleanIsFree(spell, a);
    CleanIsFree(spell, b);
    if JoinTexts(Spelled(spell, s)) == JoinTexts(Spelled(spell, t)) {
      JoinIsInjective(Spelled(spell, s), Spelled(spell, t));
      assert Spelled(spell, s)[0] == Spelled(spell, t)[0];
      SpellingsDiffer(spell, g, s[0], t[0]);
    }
  }

  /** Components apart from each other have different texts if the entities, or if the relations, are clean. */
  lemma CleanTextsDiffer(
    g: Graph, spell: Spelling, entities: set<Id>, relations: set<Id>, entities': set<Id>, relations': set<Id>)
    requires Spells(spell, g)
    requires entities <= Names(g) && entities' <= Names(g) && entities != {} && entities' != {} && entities !! entities'
    requires relations <= Names(g) && relations' <= Names(g) && relations != {} && relations' != {}
    requires relations !! relations'
    requires Clean(spell, entities + entities') || Clean(spell, relations + relations')
    ensures ComponentText(spell, entities, relations) != ComponentText(spell, entities', relations')
  {
    hide SortedIds, JoinTexts, Names, Spells, Spelled;
    var e, r := JoinTexts(Spelled(spell, SortedIds(entities))), JoinTexts(Spelled(spell, SortedIds(relations)));
    var e', r' := JoinTexts(Spelled(spell, SortedIds(entities'))), JoinTexts(Spelled(spell, SortedIds(relations')));
    if e + "|" + r == e' + "|" + r' {
      if Clean(spell, entities + entities') {
        CleanIsFree(spell, entities);
        CleanIsFree(spell, entities');
        SplitOnce(e, r, e', r', '|');
        JoinedAlike(g, spell, entities, entities');
      } else {
        CleanIsFree(spell, relations);
        CleanIsFree(spell, relations');
        SplitOnce(e, r, e', r', '|');
        JoinedAlike(g, spell, relations, relations');
      }
    }
  }

  lemma PartNames(g: Graph, i: nat)
    requires Valid(g) && i < |ActiveComponents(g)|
    ensures var part := ActiveComponents(g)[i];
            var relations := RelationIds(ActiveRelations(ComponentSubgraph(g, part)));
            && part != {} && part <= ActiveEntities(g) && part <= Names(g)
            && relations != {} && relations <= RelationIds(ActiveRelations(g)) && relations <= Names(g)
  {
    hide ActiveComponents, ActiveRelations, ActiveLinks, ActiveEntities, ComponentSubgraph, IsClass, Valid, EntityIds;
    var part := ActiveComponents(g)[i];
    ComponentIsClass(g, i);
    ComponentHasActiveRelation(g, i);
    ActiveEntitiesAreNamed(g);
    ActiveInSubgraph(g, part);
    ActiveAreFiltered(g);
    hide Active;
  }

  lemma ActiveEntitiesAreNamed(g: Graph)
    requires Valid(g)
    ensures ActiveEntities(g) <= EntityIds(g)
  {
    hide ActiveLinks;
    ActiveLinksMeaning(g);
    forall x | x in ActiveEntities(g) ensures x in EntityIds(g) {
      var r :| r in g.relations && Active(r) && Touches(r, x);
    }
  }

  lemma ActiveAreFiltered(g: Graph)
    ensures forall r :: r in ActiveRelations(g) <==> r in g.relations && Active(r)
  {
    FilterKeeps(g.relations, Active);
  }

  /**
   If no active entity's text, or no active relation's text, has a comma or a bar, the components of the graph have
   different texts. Only when some entity and some relation have one can two components be confused.
   */
  lemma CleanGraphsAreTold(g: Graph, spell: Spelling)
    requires Valid(g) && Spells(spell, g)
    requires Clean(spell, ActiveEntities(g)) || Clean(spell, RelationIds(ActiveRelations(g)))
    ensures TextsDiffer(g, spell)
  {
    hide ActiveComponents, ActiveRelations, ActiveEntities, ComponentSubgraph, ComponentText, Names, Valid, Spells;
    PartsAreDisjoint(g);
    forall i: nat, j: nat | i < |ActiveComponents(g)| && j < |ActiveComponents(g)| && i != j
      ensures TextAt(g, spell, i) != TextAt(g, spell, j)
    {
      var a, b := ActiveComponents(g)[i], ActiveComponents(g)[j];
      PartNames(g, i);
      PartNames(g, j);
      ActiveIdsAreDisjoint(g, a, b);
      CleanTextsDiffer(g, spell, a, RelationIds(ActiveRelations(ComponentSubgraph(g, a))),
                       b, RelationIds(ActiveRelations(ComponentSubgraph(g, b))));
    }
  }

  /** With clean texts, and a hash that does not collide, components of the graph have different identifiers. */
  lemma CleanGraphsHaveDistinctIds(g: Graph, spell: Spelling, hash: TextHash)
    requires Valid(g) && Spells(spell, g) && NoCollision(hash)
    requires Clean(spell, ActiveEntities(g)) || Clean(spell, RelationIds(ActiveRelations(g)))
    ensures DistinctIds(Components(g, IdentifierOf(spell, hash)))
  {
    hide *;
    CleanGraphsAreTold(g, spell);
    IdentifiersDifferIff(g, spell, hash);
  }

  // ----- the text of a line

  /** The payload of `_new_world_line_id`; `decimal` is `str` on ticks. */
  function LineText(
    spell: Spelling, decimal: nat -> string, stream: Id, tick: nat, component: Id, lines: seq<Id>): string
  {
    spell(stream) + "|" + decimal(tick) + "|" + spell(component) + "|" + JoinTexts(Spelled(spell, lines))
  }

  /** `_new_world_line_id`. */
  function LineIdentifierOf(spell: Spelling, decimal: nat -> string, hash: TextHash): LineDigest {
    (stream: Id, tick: nat, component: Id, lines: seq<Id>) =>
      hash(LineText(spell, decimal, stream, tick, component, lines))
  }

  /** Ticks are written differently and without a bar. */
  ghost predicate WritesTicks(decimal: nat -> string) {
    && (forall t, t' :: decimal(t) == decimal(t') ==> t == t')
    && (forall t :: Free(decimal(t), '|'))
  }

  lemma LineTextSplits(
    spell: Spelling, decimal: nat -> string, s: Id, t: nat, c: Id, ps: seq<Id>, t': nat, c': Id, ps': seq<Id>)
    requires WritesTicks(decimal)
    requires LineText(spell, decimal, s, t, c, ps) == LineText(spell, decimal, s, t', c', ps')
    ensures t == t'
    ensures Free(spell(c), '|') && Free(spell(c'), '|') ==> spell(c) == spell(c')
  {
    hide JoinTexts, Spelled;
    var head := spell(s) + "|";
    var rest, rest' := spell(c) + "|" + JoinTexts(Spelled(spell, ps)), spell(c') + "|" + JoinTexts(Spelled(spell, ps'));
    assert LineText(spell, decimal, s, t, c, ps) == head + (decimal(t) + "|" + rest);
    assert LineText(spell, decimal, s, t', c', ps') == head + (decimal(t') + "|" + rest');
    assert decimal(t) + "|" + rest == (head + (decimal(t) + "|" + rest))[|head|..];
    assert decimal(t') + "|" + rest' == (head + (decimal(t') + "|" + rest'))[|head|..];
    SplitOnce(decimal(t), rest, decimal(t'), rest', '|');
    if Free(spell(c), '|') && Free(spell(c'), '|') {
      SplitOnce(spell(c), JoinTexts(Spelled(spell, ps)), spell(c'), JoinTexts(Spelled(spell, ps')), '|');
    }
  }

  /**
   Line identifiers tell ticks apart, and components whose identifiers are written differently and without a bar,
   as hashed identifiers are; nothing is assumed but that the hash does not collide.
   */
  lemma LinesTellApart(spell: Spelling, decimal: nat -> string, hash: TextHash, components: seq<ComponentReport>)
    requires WritesTicks(decimal) && NoCollision(hash)
    requires forall i :: 0 <= i < |components| ==> Free(spell(components[i].componentId), '|')
    requires forall i, j :: 0 <= i < |components| && 0 <= j < |components|
                            && spell(components[i].componentId) == spell(components[j].componentId)
                            ==> components[i].componentId == components[j].componentId
    ensures TicksDiffer(LineIdentifierOf(spell, decimal, hash))
    ensures TellsApart(LineIdentifierOf(spell, decimal, hash), components)
  {
    hide LineText;
    var digest := LineIdentifierOf(spell, decimal, hash);
    forall s, t, c, ps, t', c', ps' | t != t' ensures digest(s, t, c, ps) != digest(s, t', c', ps') {
      if digest(s, t, c, ps) == digest(s, t', c', ps') {
        LineTextSplits(spell, decimal, s, t, c, ps, t', c', ps');
      }
    }
    forall s, t, i, j, ps, ps' | 0 <= i < |components| && 0 <= j < |components|
      && components[i].componentId != components[j].componentId
      ensures digest(s, t, components[i].componentId, ps) != digest(s, t, components[j].componentId, ps')
    {
      var c, c' := components[i].componentId, components[j].componentId;
      if digest(s, t, c, ps) == digest(s, t, c', ps') {
        LineTextSplits(spell, decimal, s, t, c, ps, t, c', ps');
      }
    }
  }
}
