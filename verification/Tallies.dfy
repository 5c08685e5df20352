/** Sums over tables, totals kept per group, and indexes from groups to members. */
module Tallies {
  /** The amount under a key, zero when there is none. */
  function Get<K>(m: map<K, nat>, k: K): nat {
    if k in m then m[k] else 0
  }

  function Put<K>(m: map<K, nat>, k: K, v: nat): map<K, nat> {
    if v == 0 then m - {k} else m[k := v]
  }

  ghost function Sum<K>(m: map<K, nat>): nat
    decreases |m|
  {
    if m == map[] then 0
    else
      var k :| k in m;
      m[k] + Sum(m - {k})
  }

  /** The sum does not depend on the order. */
  lemma {:induction false} SumPick<K>(m: map<K, nat>, k: K)
    requires k in m
    ensures Sum(m) == m[k] + Sum(m - {k})
    decreases |m|
  {
    var j :| j in m && Sum(m) == m[j] + Sum(m - {j});
    if j != k {
      SumPick(m - {j}, k);
      SumPick(m - {k}, j);
      assert m - {j} - {k} == m - {k} - {j};
    }
  }

  lemma SumPut<K>(m: map<K, nat>, k: K, v: nat)
    ensures Sum(m[k := v]) + Get(m, k) == Sum(m) + v
    ensures Sum(m - {k}) + Get(m, k) == Sum(m)
    ensures Sum(Put(m, k, v)) + Get(m, k) == Sum(m) + v
  {
    SumPick(m[k := v], k);
    assert m[k := v] - {k} == m - {k};
    if k in m {
      SumPick(m, k);
    } else {
      assert m - {k} == m;
    }
  }

  // ----- Totals per group -----

  function InGroup<K>(amounts: map<K, nat>, groupOf: map<K, string>, g: string): map<K, nat> {
    map k | k in amounts && k in groupOf && groupOf[k] == g :: amounts[k]
  }

  /** Every group's total is the sum of its members, and nothing is left out. */
  ghost predicate Grouped<K>(totals: map<string, nat>, amounts: map<K, nat>, groupOf: map<K, string>) {
    && amounts.Keys <= groupOf.Keys
    && forall g :: Get(totals, g) == Sum(InGroup(amounts, groupOf, g))
  }

  /** Changing one amount changes its own group's total and no other. */
  lemma GroupedPut<K>(totals: map<string, nat>, amounts: map<K, nat>, groupOf: map<K, string>, k: K, v: nat,
                      totals': map<string, nat>)
    requires Grouped(totals, amounts, groupOf) && k in groupOf
    requires Get(totals', groupOf[k]) + Get(amounts, k) == Get(totals, groupOf[k]) + v
    requires forall g | g != groupOf[k] :: Get(totals', g) == Get(totals, g)
    ensures Grouped(totals', Put(amounts, k, v), groupOf)
    ensures Grouped(totals', amounts[k := v], groupOf)
  {
    var after, set' := Put(amounts, k, v), amounts[k := v];
    forall g ensures Get(totals', g) == Sum(InGroup(after, groupOf, g)) == Sum(InGroup(set', groupOf, g)) {
      var before := InGroup(amounts, groupOf, g);
      if g == groupOf[k] {
        assert InGroup(after, groupOf, g) == Put(before, k, v);
        assert InGroup(set', groupOf, g) == before[k := v];
        assert Get(before, k) == Get(amounts, k);
        SumPut(before, k, v);
      } else {
        assert InGroup(after, groupOf, g) == before == InGroup(set', groupOf, g);
      }
    }
  }

  /** Members without an amount may join or leave the grouping. */
  lemma GroupedMembers<K>(totals: map<string, nat>, amounts: map<K, nat>, groupOf: map<K, string>, k: K, g: string)
    requires Grouped(totals, amounts, groupOf) && k !in amounts
    ensures Grouped(totals, amounts, groupOf[k := g]) && Grouped(totals, amounts, groupOf - {k})
  {
    forall h ensures InGroup(amounts, groupOf[k := g], h) == InGroup(amounts, groupOf, h) ==
        InGroup(amounts, groupOf - {k}, h) {
    }
  }

  lemma WithinGroup<K>(totals: map<string, nat>, amounts: map<K, nat>, groupOf: map<K, string>, k: K)
    requires Grouped(totals, amounts, groupOf) && k in groupOf
    ensures Get(amounts, k) <= Get(totals, groupOf[k])
  {
    assert Get(totals, groupOf[k]) == Sum(InGroup(amounts, groupOf, groupOf[k]));
    MemberWithinWhole(InGroup(amounts, groupOf, groupOf[k]), k);
  }

  /** A new member brings its amount. */
  lemma GroupedJoins<K>(totals: map<string, nat>, amounts: map<K, nat>, groupOf: map<K, string>, k: K, g: string,
                        v: nat)
    requires Grouped(totals, amounts, groupOf) && k !in amounts
    ensures Grouped(totals[g := Get(totals, g) + v], amounts[k := v], groupOf[k := g])
  {
    GroupedMembers(totals, amounts, groupOf, k, g);
    hide Grouped;
    GroupedPut(totals, amounts, groupOf[k := g], k, v, totals[g := Get(totals, g) + v]);
  }

  /** A member leaves with its amount. */
  lemma GroupedDeparts<K>(totals: map<string, nat>, amounts: map<K, nat>, groupOf: map<K, string>, k: K)
    requires Grouped(totals, amounts, groupOf) && k in groupOf
    ensures Get(amounts, k) <= Get(totals, groupOf[k])
    ensures var less := Put(totals, groupOf[k], Get(totals, groupOf[k]) - Get(amounts, k));
            Grouped(less, amounts - {k}, groupOf - {k}) && forall h :: Get(less, h) <= Get(totals, h)
  {
    WithinGroup(totals, amounts, groupOf, k);
    hide Grouped;
    var less := Put(totals, groupOf[k], Get(totals, groupOf[k]) - Get(amounts, k));
    GroupedPut(totals, amounts, groupOf, k, 0, less);
    GroupedMembers(less, amounts - {k}, groupOf, k, "");
  }

  /** A group's total never exceeds the whole. */
  lemma {:induction false} GroupWithinWhole<K>(amounts: map<K, nat>, groupOf: map<K, string>, g: string)
    ensures Sum(InGroup(amounts, groupOf, g)) <= Sum(amounts)
    decreases |amounts|
  {
    if amounts != map[] {
      var k :| k in amounts;
      SumPick(amounts, k);
      var rest := amounts - {k};
      GroupWithinWhole(rest, groupOf, g);
      var part := InGroup(amounts, groupOf, g);
      if k in part {
        SumPick(part, k);
        assert part - {k} == InGroup(rest, groupOf, g);
      } else {
        assert part == InGroup(rest, groupOf, g);
      }
    } else {
      assert InGroup(amounts, groupOf, g) == map[];
    }
  }

  lemma {:induction false} MemberWithinWhole<K>(amounts: map<K, nat>, k: K)
    ensures Get(amounts, k) <= Sum(amounts)
  {
    if k in amounts { SumPick(amounts, k); }
  }

  // ----- Indexes -----

  function Members<K>(index: map<string, set<K>>, g: string): set<K> {
    if g in index then index[g] else {}
  }

  /** The index lists, under each group, exactly the members that belong to it. */
  ghost predicate Indexed<K>(index: map<string, set<K>>, groupOf: map<K, string>) {
    && (forall k | k in groupOf :: k in Members(index, groupOf[k]))
    && (forall g, k | k in Members(index, g) :: k in groupOf && groupOf[k] == g)
  }

  function Joined<K>(index: map<string, set<K>>, g: string, k: K): map<string, set<K>> {
    index[g := Members(index, g) + {k}]
  }

  function Departed<K>(index: map<string, set<K>>, g: string, k: K): map<string, set<K>> {
    if Members(index, g) - {k} == {} then index - {g} else index[g := Members(index, g) - {k}]
  }

  lemma JoinedMembers<K>(index: map<string, set<K>>, g: string, k: K)
    ensures forall h :: Members(Joined(index, g, k), h) == if h == g then Members(index, h) + {k} else Members(index, h)
  {
  }

  lemma DepartedMembers<K>(index: map<string, set<K>>, g: string, k: K)
    ensures forall h :: Members(Departed(index, g, k), h) == if h == g then Members(index, h) - {k}
            else Members(index, h)
  {
  }

  lemma IndexedJoins<K>(index: map<string, set<K>>, groupOf: map<K, string>, g: string, k: K)
    requires Indexed(index, groupOf) && (k in groupOf ==> groupOf[k] == g)
    ensures Indexed(Joined(index, g, k), groupOf[k := g])
  {
    hide Members, Joined;
    JoinedMembers(index, g, k);
  }

  lemma IndexedDeparts<K>(index: map<string, set<K>>, groupOf: map<K, string>, k: K)
    requires Indexed(index, groupOf) && k in groupOf
    ensures Indexed(Departed(index, groupOf[k], k), groupOf - {k})
  {
    hide Members, Departed;
    DepartedMembers(index, groupOf[k], k);
  }

  ghost function Sizes<K>(index: map<string, set<K>>): map<string, nat> {
    map g | g in index :: |index[g]|
  }

  lemma {:induction false} SumOfZeros<K>(m: map<K, nat>)
    requires forall k | k in m :: m[k] == 0
    ensures Sum(m) == 0
    decreases |m|
  {
    if m != map[] {
      var k :| k in m && Sum(m) == m[k] + Sum(m - {k});
      SumOfZeros(m - {k});
    }
  }

  /** The sizes of the groups add up to the number of members. */
  lemma {:induction false} IndexedCounts<K>(index: map<string, set<K>>, groupOf: map<K, string>)
    requires Indexed(index, groupOf)
    ensures Sum(Sizes(index)) == |groupOf|
    decreases |groupOf|
  {
    if groupOf == map[] {
      forall g | g in index ensures index[g] == {} { assert Members(index, g) == {}; }
      SumOfZeros(Sizes(index));
    } else {
      var k :| k in groupOf;
      Shrinks(index, groupOf, k);
      assert k in Members(index, groupOf[k]);
      OneFewer(index, groupOf[k], k);
      hide Indexed, Members, Sizes;
      IndexedCounts(index[groupOf[k] := Members(index, groupOf[k]) - {k}], groupOf - {k});
    }
  }

  lemma Shrinks<K>(index: map<string, set<K>>, groupOf: map<K, string>, k: K)
    requires Indexed(index, groupOf) && k in groupOf
    ensures Indexed(index[groupOf[k] := Members(index, groupOf[k]) - {k}], groupOf - {k})
  {
    hide Members;
    var g, rest := groupOf[k], groupOf - {k};
    var smaller := index[g := Members(index, g) - {k}];
    ShrunkMembers(index, g, k);
    forall j | j in rest ensures j in Members(smaller, rest[j]) {
      assert j in Members(index, groupOf[j]) && Members(smaller, rest[j]) == if rest[j] == g
             then Members(index, g) - {k} else Members(index, rest[j]);
    }
    forall h, j | j in Members(smaller, h) ensures j in rest && rest[j] == h {
      assert j in Members(index, h);
    }
  }

  lemma OneFewer<K>(index: map<string, set<K>>, g: string, k: K)
    requires k in Members(index, g)
    ensures Sum(Sizes(index[g := Members(index, g) - {k}])) == Sum(Sizes(index)) - 1
  {
    assert Sizes(index[g := index[g] - {k}]) == Sizes(index)[g := |index[g]| - 1];
    SumPut(Sizes(index), g, |index[g]| - 1);
  }

  lemma ShrunkMembers<K>(index: map<string, set<K>>, g: string, k: K)
    ensures forall h :: Members(index[g := Members(index, g) - {k}], h) == if h == g then Members(index, h) - {k}
            else Members(index, h)
  {
  }

  /** Group totals add up to the sum of everything. */
  lemma {:induction false} GroupsAddUp<K>(totals: map<string, nat>, amounts: map<K, nat>, groupOf: map<K, string>)
    requires Grouped(totals, amounts, groupOf)
    ensures Sum(totals) == Sum(amounts)
    decreases |amounts|
  {
    if amounts == map[] {
      forall g | g in totals ensures totals[g] == 0 {
        assert Get(totals, g) == Sum(InGroup(amounts, groupOf, g));
        assert InGroup(amounts, groupOf, g) == map[];
      }
      SumOfZeros(totals);
    } else {
      var k :| k in amounts;
      var g := groupOf[k];
      assert Get(totals, g) == Sum(InGroup(amounts, groupOf, g));
      SumPick(InGroup(amounts, groupOf, g), k);
      var less := totals[g := Get(totals, g) - amounts[k]];
      GroupedPut(totals, amounts, groupOf, k, 0, less);
      GroupsAddUp(less, amounts - {k}, groupOf);
      SumPut(totals, g, less[g]);
      SumPut(amounts, k, 0);
    }
  }
}
