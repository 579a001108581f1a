/** Macaroon permissions, and the two-level map by which lists of them are freed of duplicates. */
module Permissions {

  datatype Op = Op(entity: string, action: string)

  /** The source's map of entities to sets of actions. */
  type Pairs = map<string, set<string>>

  predicate Has(pairs: Pairs, op: Op) {
    op.entity in pairs && op.action in pairs[op.entity]
  }

  function Elements(ops: seq<Op>): set<Op> {
    set op | op in ops
  }

  predicate NoDuplicates(ops: seq<Op>) {
    forall i, j | 0 <= i < j < |ops| :: ops[i] != ops[j]
  }

  /** The map says exactly which operations are in the set. */
  ghost predicate Represents(pairs: Pairs, ops: set<Op>) {
    forall op :: Has(pairs, op) <==> op in ops
  }

  lemma Added(before: Pairs, after: Pairs, known: set<Op>, p: Op)
    requires Represents(before, known) && after.Keys == before.Keys + {p.entity}
    requires after[p.entity] == (if p.entity in before then before[p.entity] else {}) + {p.action}
    requires forall entity | entity in before && entity != p.entity :: after[entity] == before[entity]
    ensures Represents(after, known + {p})
  {
    forall op: Op
      ensures Has(after, op) <==> op in known + {p}
    {
      assert Has(before, op) <==> op in known;
      assert op.entity == p.entity && op.action == p.action ==> op == p;
    }
  }

  /** Adds a list of permissions to the map. */
  method AddAll(before: Pairs, ops: seq<Op>, ghost known: set<Op>) returns (pairs: Pairs)
    requires Represents(before, known)
    ensures Represents(pairs, known + Elements(ops))
  {
    pairs := before;
    for i := 0 to |ops|
      invariant Represents(pairs, known + Elements(ops[..i]))
    {
      var p := ops[i];
      ghost var was := pairs;
      if p.entity !in pairs {
        pairs := pairs[p.entity := {}];
      }
      pairs := pairs[p.entity := pairs[p.entity] + {p.action}];
      Added(was, pairs, known + Elements(ops[..i]), p);
      assert ops[..i + 1] == ops[..i] + [p];
      assert known + Elements(ops[..i + 1]) == known + Elements(ops[..i]) + {p};
    }
    assert ops[..|ops|] == ops;
  }

  /** Turns the map back into a list. Go visits the keys of a map in any order. */
  method Flatten(pairs: Pairs, ghost all: set<Op>) returns (ops: seq<Op>)
    requires Represents(pairs, all)
    ensures NoDuplicates(ops) && Elements(ops) == all
  {
    ops := [];
    var entities := pairs.Keys;
    while entities != {}
      invariant entities <= pairs.Keys && NoDuplicates(ops)
      invariant forall op :: op in ops <==> op.entity !in entities && op in all
    {
      var entity :| entity in entities;
      entities := entities - {entity};
      ops := AppendActions(ops, entity, pairs[entity]);
    }
  }

  method AppendActions(before: seq<Op>, entity: string, all: set<string>) returns (ops: seq<Op>)
    requires NoDuplicates(before) && forall op | op in before :: op.entity != entity
    ensures NoDuplicates(ops)
    ensures forall op :: op in ops <==> op in before || (op.entity == entity && op.action in all)
  {
    ops := before;
    var actions := all;
    while actions != {}
      invariant actions <= all && NoDuplicates(ops)
      invariant forall op :: op in ops <==> op in before || (op.entity == entity && op.action in all - actions)
    {
      var action :| action in actions;
      actions := actions - {action};
      assert Op(entity, action) !in ops;
      ops := ops + [Op(entity, action)];
    }
  }

  // ---- the count test ----

  lemma {:induction false} CountElements(ops: seq<Op>)
    ensures |Elements(ops)| <= |ops|
    ensures |Elements(ops)| == |ops| <==> NoDuplicates(ops)
  {
    if ops != [] {
      var last, rest := ops[|ops| - 1], ops[..|ops| - 1];
      CountElements(rest);
      LastRepeats(rest, last);
      assert ops == rest + [last];
      assert Elements(ops) == Elements(rest) + {last};
    }
  }

  lemma LastRepeats(rest: seq<Op>, last: Op)
    ensures NoDuplicates(rest + [last]) <==> NoDuplicates(rest) && last !in rest
  {
    var ops := rest + [last];
    if NoDuplicates(ops) {
      forall i, j | 0 <= i < j < |rest|
        ensures rest[i] != rest[j]
      {
        assert ops[i] != ops[j];
      }
      forall i | 0 <= i < |rest|
        ensures rest[i] != last
      {
        assert ops[i] != ops[|rest|];
      }
    }
  }

  /** All that is required is allowed, and as much is allowed as the list is long. */
  predicate CountTest(required: seq<Op>, allowed: set<Op>) {
    (forall op | op in required :: op in allowed) && |allowed| == |required|
  }

  lemma SubsetOfEqualSize(a: set<Op>, b: set<Op>)
    requires a <= b && |a| == |b|
    ensures a == b
  {
    assert b == a + (b - a);
    assert |b - a| == 0;
  }

  lemma CountTestExact(required: seq<Op>, allowed: set<Op>)
    requires NoDuplicates(required)
    ensures CountTest(required, allowed) <==> allowed == Elements(required)
  {
    CountElements(required);
    if CountTest(required, allowed) {
      SubsetOfEqualSize(Elements(required), allowed);
    }
  }

  /** The test means that the two sets are equal if and only if the list has no duplicates. With a
      duplicate, it turns down the very macaroon that grants what the list asks for. */
  lemma CountTestNeedsNoDuplicates(required: seq<Op>)
    ensures NoDuplicates(required)
      <==> forall allowed: set<Op> :: CountTest(required, allowed) <==> allowed == Elements(required)
  {
    CountElements(required);
    forall allowed: set<Op> | NoDuplicates(required)
      ensures CountTest(required, allowed) <==> allowed == Elements(required)
    {
      CountTestExact(required, allowed);
    }
    if !NoDuplicates(required) {
      assert !CountTest(required, Elements(required));
    }
  }
}
