/** The filter tree `findWhere` and `findWhereOrAnd` build from a flat clause
    batch, and a reference evaluator for it over one document. */
module Filters {
  import opened Datatypes

  /** A leaf predicate, a conjunction (`Filter.and`) or a disjunction (`Filter.or`). */
  datatype Filter = Leaf(clause: WhereClause) | All(parts: seq<Filter>) | Any(parts: seq<Filter>)

  /** Lexicographic order on strings, by code point. */
  predicate LexLess(a: string, b: string)
    decreases |a|
  {
    if a == [] then b != []
    else b != [] && (a[0] < b[0] || (a[0] == b[0] && LexLess(a[1..], b[1..])))
  }

  /** Range comparisons only relate two numbers or two strings. */
  predicate Below(x: Value, y: Value) {
    || (x.Num? && y.Num? && x.n < y.n)
    || (x.Str? && y.Str? && LexLess(x.s, y.s))
  }

  /** Does one clause match a document? A document without the field never matches. */
  predicate Holds(c: WhereClause, doc: Record) {
    c.key in doc &&
    var v := doc[c.key];
    match c.op
    case Eq => v == c.value
    case Ne => v != c.value
    case Lt => Below(v, c.value)
    case Le => Below(v, c.value) || v == c.value
    case Gt => Below(c.value, v)
    case Ge => Below(c.value, v) || v == c.value
    case ArrayContains => v.Arr? && c.value in v.items
    case ArrayContainsAny => v.Arr? && c.value.Arr? && exists x :: x in c.value.items && x in v.items
    case In => c.value.Arr? && v in c.value.items
    case NotIn => c.value.Arr? && v !in c.value.items
  }

  predicate Eval(f: Filter, doc: Record) {
    match f
    case Leaf(c) => Holds(c, doc)
    case All(ps) => forall i :: 0 <= i < |ps| ==> Eval(ps[i], doc)
    case Any(ps) => exists i :: 0 <= i < |ps| && Eval(ps[i], doc)
  }

  /** `Filter(key, operator, value)` of a tagged clause: the tag is dropped. */
  function Clause(c: AndOrClause): WhereClause {
    WhereClause(c.key, c.op, c.value)
  }

  /** What `forEach` pushes into `andWhere` (t = TagAnd) or `orWhere` (t = TagOr). */
  function TaggedLeaves(cs: seq<AndOrClause>, t: Tag): seq<Filter>
    decreases |cs|
  {
    if cs == [] then []
    else
      var last := cs[|cs| - 1];
      TaggedLeaves(cs[..|cs| - 1], t) + (if last.tag == t then [Leaf(Clause(last))] else [])
  }

  /** What `findWhere`'s `forEach` pushes into `andWhere`. */
  function Leaves(ws: seq<WhereClause>): seq<Filter>
    decreases |ws|
  {
    if ws == [] then [] else Leaves(ws[..|ws| - 1]) + [Leaf(ws[|ws| - 1])]
  }

  /** The `forEach` of `findWhereOrAnd`: a clause tagged 'and' is pushed to
      `andWhere`, every other clause to `orWhere`. */
  method Partition(cs: seq<AndOrClause>) returns (andWhere: seq<Filter>, orWhere: seq<Filter>)
    ensures andWhere == TaggedLeaves(cs, TagAnd)
    ensures orWhere == TaggedLeaves(cs, TagOr)
  {
    andWhere, orWhere := [], [];
    var i := 0;
    while i < |cs|
      invariant 0 <= i <= |cs|
      invariant andWhere == TaggedLeaves(cs[..i], TagAnd)
      invariant orWhere == TaggedLeaves(cs[..i], TagOr)
    {
      assert cs[..i + 1][..i] == cs[..i];
      var whe := Leaf(Clause(cs[i]));
      if cs[i].tag == TagAnd {
        andWhere := andWhere + [whe];
      } else {
        orWhere := orWhere + [whe];
      }
      i := i + 1;
    }
    assert cs[..i] == cs;
  }

  /** The `forEach` of `findWhere`: every clause is pushed to `andWhere`. */
  method Conjuncts(ws: seq<WhereClause>) returns (andWhere: seq<Filter>)
    ensures andWhere == Leaves(ws)
  {
    andWhere := [];
    var i := 0;
    while i < |ws|
      invariant 0 <= i <= |ws|
      invariant andWhere == Leaves(ws[..i])
    {
      assert ws[..i + 1][..i] == ws[..i];
      andWhere := andWhere + [Leaf(ws[i])];
      i := i + 1;
    }
    assert ws[..i] == ws;
  }

  /** The filter `findWhereOrAnd` builds from `wh`. */
  function BuildWhereOrAnd(wh: AndOrWhere): (f: Filter)
    ensures f.Any? <==> wh.kind == CombineOr
    ensures wh.kind == CombineAndOr ==>
      f.All? && |f.parts| == |TaggedLeaves(wh.parameter, TagAnd)| + 1 && f.parts[|f.parts| - 1].Any?
  {
    var andWhere := TaggedLeaves(wh.parameter, TagAnd);
    var orWhere := TaggedLeaves(wh.parameter, TagOr);
    match wh.kind
    case CombineAndOr => All(andWhere + [Any(orWhere)])
    case CombineOr => Any(orWhere)
    case CombineAnd => All(andWhere)
  }

  /** The filter `findWhere` builds from its clause list. */
  function BuildWhere(ws: seq<WhereClause>): (f: Filter)
    ensures f.All? && |f.parts| == |ws|
    ensures forall i :: 0 <= i < |ws| ==> f.parts[i] == Leaf(ws[i])
  {
    LeavesAt(ws);
    All(Leaves(ws))
  }

  /** Every clause tagged `t` holds. */
  predicate AllTaggedHold(cs: seq<AndOrClause>, t: Tag, doc: Record) {
    forall c :: c in cs && c.tag == t ==> Holds(Clause(c), doc)
  }

  /** Some clause tagged `t` holds. */
  predicate SomeTaggedHolds(cs: seq<AndOrClause>, t: Tag, doc: Record) {
    exists c :: c in cs && c.tag == t && Holds(Clause(c), doc)
  }

  /** Concatenating batches concatenates their partitions: a clause's side and
      its place among the clauses of that side depend on its own tag only. */
  lemma {:induction false} TaggedLeavesAppend(a: seq<AndOrClause>, b: seq<AndOrClause>, t: Tag)
    ensures TaggedLeaves(a + b, t) == TaggedLeaves(a, t) + TaggedLeaves(b, t)
    decreases |b|
  {
    if b == [] {
      assert a + b == a;
    } else {
      var b' := b[..|b| - 1];
      assert (a + b)[..|a + b| - 1] == a + b';
      assert (a + b)[|a + b| - 1] == b[|b| - 1];
      TaggedLeavesAppend(a, b', t);
    }
  }

  /** Each clause lands on exactly one side. */
  lemma {:induction false} PartitionSizes(cs: seq<AndOrClause>)
    ensures |TaggedLeaves(cs, TagAnd)| + |TaggedLeaves(cs, TagOr)| == |cs|
    decreases |cs|
  {
    if cs != [] {
      PartitionSizes(cs[..|cs| - 1]);
    }
  }

  /** A leaf is on side `t` exactly when some clause tagged `t` produced it. */
  lemma {:induction false} TaggedLeavesMembers(cs: seq<AndOrClause>, t: Tag, f: Filter)
    ensures f in TaggedLeaves(cs, t) <==> exists c :: c in cs && c.tag == t && f == Leaf(Clause(c))
    decreases |cs|
  {
    if cs != [] {
      var init, last := cs[..|cs| - 1], cs[|cs| - 1];
      assert cs == init + [last];
      TaggedLeavesMembers(init, t, f);
      if f in TaggedLeaves(cs, t) && f !in TaggedLeaves(init, t) {
        assert last in cs && last.tag == t && f == Leaf(Clause(last));
      }
      if exists c :: c in cs && c.tag == t && f == Leaf(Clause(c)) {
        var c :| c in cs && c.tag == t && f == Leaf(Clause(c));
        if c != last {
          assert c in init;
        }
      }
    }
  }

  lemma AllSnoc(ps: seq<Filter>, p: Filter, doc: Record)
    ensures Eval(All(ps + [p]), doc) <==> Eval(All(ps), doc) && Eval(p, doc)
  {
    var qs := ps + [p];
    assert qs[|ps|] == p;
    assert forall i :: 0 <= i < |ps| ==> qs[i] == ps[i];
  }

  lemma AnySnoc(ps: seq<Filter>, p: Filter, doc: Record)
    ensures Eval(Any(ps + [p]), doc) <==> Eval(Any(ps), doc) || Eval(p, doc)
  {
    var qs := ps + [p];
    assert qs[|ps|] == p;
    assert forall i :: 0 <= i < |ps| ==> qs[i] == ps[i];
  }

  /** The conjunction of one side holds iff every clause with that tag holds. */
  lemma {:induction false} AllTaggedMeaning(cs: seq<AndOrClause>, t: Tag, doc: Record)
    ensures Eval(All(TaggedLeaves(cs, t)), doc) <==> AllTaggedHold(cs, t, doc)
    decreases |cs|
  {
    if cs != [] {
      var init, last := cs[..|cs| - 1], cs[|cs| - 1];
      assert cs == init + [last];
      AllTaggedMeaning(init, t, doc);
      if last.tag == t {
        AllSnoc(TaggedLeaves(init, t), Leaf(Clause(last)), doc);
      } else {
        assert TaggedLeaves(cs, t) == TaggedLeaves(init, t);
      }
    }
  }

  /** The disjunction of one side holds iff some clause with that tag holds. */
  lemma {:induction false} AnyTaggedMeaning(cs: seq<AndOrClause>, t: Tag, doc: Record)
    ensures Eval(Any(TaggedLeaves(cs, t)), doc) <==> SomeTaggedHolds(cs, t, doc)
    decreases |cs|
  {
    if cs != [] {
      var init, last := cs[..|cs| - 1], cs[|cs| - 1];
      assert cs == init + [last];
      AnyTaggedMeaning(init, t, doc);
      if last.tag == t {
        AnySnoc(TaggedLeaves(init, t), Leaf(Clause(last)), doc);
      } else {
        assert TaggedLeaves(cs, t) == TaggedLeaves(init, t);
      }
      if SomeTaggedHolds(cs, t, doc) {
        var c :| c in cs && c.tag == t && Holds(Clause(c), doc);
        if c != last {
          assert c in init;
        }
      }
    }
  }

  /** What the filter `findWhereOrAnd` builds means: `'andOr'` is
      AND(every 'and'-tagged clause, OR(the 'or'-tagged clauses)); `'or'` uses
      only the 'or'-tagged clauses and `'and'` only the 'and'-tagged ones. */
  lemma BuildWhereOrAndMeaning(wh: AndOrWhere, doc: Record)
    ensures wh.kind == CombineAndOr ==>
      (Eval(BuildWhereOrAnd(wh), doc) <==>
         AllTaggedHold(wh.parameter, TagAnd, doc) && SomeTaggedHolds(wh.parameter, TagOr, doc))
    ensures wh.kind == CombineOr ==>
      (Eval(BuildWhereOrAnd(wh), doc) <==> SomeTaggedHolds(wh.parameter, TagOr, doc))
    ensures wh.kind == CombineAnd ==>
      (Eval(BuildWhereOrAnd(wh), doc) <==> AllTaggedHold(wh.parameter, TagAnd, doc))
  {
    var cs := wh.parameter;
    AllTaggedMeaning(cs, TagAnd, doc);
    AnyTaggedMeaning(cs, TagOr, doc);
    AllSnoc(TaggedLeaves(cs, TagAnd), Any(TaggedLeaves(cs, TagOr)), doc);
  }

  lemma {:induction false} LeavesAt(ws: seq<WhereClause>)
    ensures |Leaves(ws)| == |ws|
    ensures forall i :: 0 <= i < |ws| ==> Leaves(ws)[i] == Leaf(ws[i])
    decreases |ws|
  {
    if ws != [] {
      LeavesAt(ws[..|ws| - 1]);
    }
  }

  /** `findWhere`'s filter is the conjunction of all of its clauses. */
  lemma BuildWhereMeaning(ws: seq<WhereClause>, doc: Record)
    ensures Eval(BuildWhere(ws), doc) <==> forall i :: 0 <= i < |ws| ==> Holds(ws[i], doc)
  {
    LeavesAt(ws);
  }

  /** The batch `a = 1 (and), b = 2 (or), c = 3 (or)` under `'andOr'` matches
      exactly the documents with `a = 1 AND (b = 2 OR c = 3)`. */
  lemma AndOrExample(doc: Record)
    ensures
      var wh := AndOrWhere(CombineAndOr, [
        AndOrClause("a", Eq, Num(1), TagAnd),
        AndOrClause("b", Eq, Num(2), TagOr),
        AndOrClause("c", Eq, Num(3), TagOr)]);
      Eval(BuildWhereOrAnd(wh), doc) <==>
        ("a" in doc && doc["a"] == Num(1)) &&
        (("b" in doc && doc["b"] == Num(2)) || ("c" in doc && doc["c"] == Num(3)))
  {
    var a := AndOrClause("a", Eq, Num(1), TagAnd);
    var b := AndOrClause("b", Eq, Num(2), TagOr);
    var c := AndOrClause("c", Eq, Num(3), TagOr);
    var wh := AndOrWhere(CombineAndOr, [a, b, c]);
    BuildWhereOrAndMeaning(wh, doc);
    assert AllTaggedHold(wh.parameter, TagAnd, doc) <==> Holds(Clause(a), doc);
    assert SomeTaggedHolds(wh.parameter, TagOr, doc) <==> Holds(Clause(b), doc) || Holds(Clause(c), doc);
  }
}
