/** Group formation: one group per student in individual mode, and in team
    mode the candidate list each team selector offers, kept apart from the
    students the other teams already hold. */
module Groups {

  /** The concatenation of all groups, in order. */
  function Flatten(gs: seq<seq<string>>): seq<string> {
    if gs == [] then [] else gs[0] + Flatten(gs[1..])
  }

  /** Individual mode: one single-member group per selected student. */
  function IndividualGroups(selected: seq<string>): (r: seq<seq<string>>)
    ensures |r| == |selected|
    ensures forall i :: 0 <= i < |selected| ==> r[i] == [selected[i]]
  {
    if selected == [] then [] else [[selected[0]]] + IndividualGroups(selected[1..])
  }

  /** Every individual group has exactly one member, and reading the groups
      in order gives back the selection. */
  lemma {:induction false} IndividualGroupsSpec(selected: seq<string>)
    ensures |IndividualGroups(selected)| == |selected|
    ensures forall i :: 0 <= i < |selected| ==> |IndividualGroups(selected)[i]| == 1
    ensures Flatten(IndividualGroups(selected)) == selected
  {
    if selected != [] {
      IndividualGroupsSpec(selected[1..]);
      assert IndividualGroups(selected)[1..] == IndividualGroups(selected[1..]);
      assert [selected[0]] + selected[1..] == selected;
    }
  }

  /** The selector state kept between reruns: team index to its current
      members. A team whose selector was never used has no entry. */
  type Store = map<nat, seq<string>>

  /** `st.session_state.get(f"equipo_{i}", [])`. */
  function Selection(store: Store, i: nat): seq<string> {
    if i in store then store[i] else []
  }

  /** The students held by any of the first `n` teams. */
  function InUse(store: Store, n: nat): (r: set<string>)
    ensures forall x :: x in r <==> exists i :: 0 <= i < n && x in Selection(store, i)
  {
    if n == 0 then {}
    else
      var last := Selection(store, n - 1);
      InUse(store, n - 1) + set x | x in last
  }

  /** `estudiantes_en_uso`, built by walking the first `n` team entries of the
      store and adding the members of each one that exists. */
  method CollectInUse(store: Store, n: nat) returns (inUse: set<string>)
    ensures inUse == InUse(store, n)
  {
    inUse := {};
    for i := 0 to n
      invariant inUse == InUse(store, i)
    {
      if i in store {
        inUse := inUse + set x | x in store[i];
      }
    }
  }

  /** `opciones_disponibles`: the roster, in order, without the students in
      use, except those already in this team. */
  function Options(students: seq<string>, inUse: set<string>, current: seq<string>): (opts: seq<string>)
    ensures |opts| <= |students|
    ensures forall x :: x in opts <==> x in students && (x !in inUse || x in current)
  {
    if students == [] then []
    else
      var rest := Options(students[1..], inUse, current);
      if students[0] !in inUse || students[0] in current then [students[0]] + rest else rest
  }

  /** The options follow the roster: options of a split roster are the
      options of each part, in the same order, and one student is offered
      exactly when free or already in this team. */
  lemma {:induction false} OptionsAppend(a: seq<string>, b: seq<string>, inUse: set<string>, current: seq<string>)
    ensures Options(a + b, inUse, current) == Options(a, inUse, current) + Options(b, inUse, current)
    ensures |a| == 1 ==> Options(a, inUse, current) == if a[0] !in inUse || a[0] in current then a else []
  {
    if a == [] {
      assert a + b == b;
    } else {
      assert (a + b)[0] == a[0] && (a + b)[1..] == a[1..] + b;
      OptionsAppend(a[1..], b, inUse, current);
    }
  }

  /** No student sits in two of the first `n` teams. */
  predicate Disjoint(store: Store, n: nat) {
    forall i, j, x :: 0 <= i < j < n && x in Selection(store, i) ==> x !in Selection(store, j)
  }

  /** What a team's selector offers includes no member of another team
      except those the team already shares with it. */
  lemma OptionsAvoidOtherTeams(students: seq<string>, store: Store, n: nat, k: nat, j: nat, x: string)
    requires k < n && j < n && j != k
    requires x in Options(students, InUse(store, n), Selection(store, k))
    requires x in Selection(store, j)
    ensures x in Selection(store, k)
  {
  }

  /** A rerun changes one selector: if the teams were disjoint and team `k`
      picks only among its offered options, they are still disjoint. */
  lemma PickKeepsDisjoint(students: seq<string>, store: Store, n: nat, k: nat, pick: seq<string>)
    requires Disjoint(store, n) && k < n
    requires forall x :: x in pick ==> x in Options(students, InUse(store, n), Selection(store, k))
    ensures Disjoint(store[k := pick], n)
  {
    var store' := store[k := pick];
    assert Selection(store', k) == pick;
    assert forall i :: i != k ==> Selection(store', i) == Selection(store, i);
    forall i, j, x | 0 <= i < j < n && x in Selection(store', i)
      ensures x !in Selection(store', j)
    {
      if i == k && x in Selection(store, j) {
        OptionsAvoidOtherTeams(students, store, n, k, j, x);
      } else if j == k && x in pick {
        OptionsAvoidOtherTeams(students, store, n, k, i, x);
      }
    }
  }

  /** The selections that are not empty, in team order. */
  function NonEmpty(picks: seq<seq<string>>): (r: seq<seq<string>>)
    ensures forall g :: g in r <==> g in picks && g != []
  {
    if picks == [] then []
    else if picks[0] == [] then NonEmpty(picks[1..])
    else [picks[0]] + NonEmpty(picks[1..])
  }

  /** No student belongs to two groups of the list. */
  predicate PairwiseDisjoint(gs: seq<seq<string>>) {
    forall a, b, x :: 0 <= a < b < |gs| && x in gs[a] ==> x !in gs[b]
  }

  /** Dropping the empty selections keeps the groups apart. */
  lemma {:induction false} NonEmptyKeepsDisjoint(picks: seq<seq<string>>)
    requires PairwiseDisjoint(picks)
    ensures PairwiseDisjoint(NonEmpty(picks))
  {
    if picks != [] {
      var rest := picks[1..];
      assert PairwiseDisjoint(rest) by {
        forall a, b, x | 0 <= a < b < |rest| && x in rest[a] ensures x !in rest[b] {
          assert rest[a] == picks[a + 1] && rest[b] == picks[b + 1];
        }
      }
      NonEmptyKeepsDisjoint(rest);
      if picks[0] != [] {
        var r := NonEmpty(picks);
        var tail := NonEmpty(rest);
        assert r == [picks[0]] + tail;
        forall a, b, x | 0 <= a < b < |r| && x in r[a] ensures x !in r[b] {
          if a == 0 {
            assert r[b] == tail[b - 1] && r[b] in tail;
            var j :| 0 <= j < |rest| && rest[j] == r[b];
            assert picks[j + 1] == r[b];
          } else {
            assert r[a] == tail[a - 1] && r[b] == tail[b - 1];
          }
        }
      }
    }
  }

  /** `grupos_a_iterar` in team mode: walk the `n` selectors in order, offer
      each its options, and keep every non-empty selection. `picks[i]` is what
      selector `i` returns, always drawn from the options it was offered. */
  method TeamGroups(students: seq<string>, store: Store, n: nat, picks: seq<seq<string>>)
    returns (groups: seq<seq<string>>)
    requires |picks| == n
    requires forall i, x :: 0 <= i < n && x in picks[i] ==> x in Options(students, InUse(store, n), Selection(store, i))
    ensures groups == NonEmpty(picks)
    ensures forall g :: g in groups ==> g != [] && forall x :: x in g ==> x in students
    ensures (forall i :: 0 <= i < n ==> picks[i] == Selection(store, i)) && Disjoint(store, n) ==>
      PairwiseDisjoint(groups)
  {
    var inUse := CollectInUse(store, n);
    groups := [];
    for i := 0 to n
      invariant groups == NonEmpty(picks[..i])
    {
      var offered := Options(students, inUse, Selection(store, i));
      var team := picks[i];
      assert forall x :: x in team ==> x in offered;
      if team != [] {
        groups := groups + [team];
      }
      NonEmptySnoc(picks[..i], team);
      assert picks[..i + 1] == picks[..i] + [team];
    }
    assert picks[..n] == picks;
    if (forall i :: 0 <= i < n ==> picks[i] == Selection(store, i)) && Disjoint(store, n) {
      NonEmptyKeepsDisjoint(picks);
    }
  }

  lemma {:induction false} NonEmptySnoc(picks: seq<seq<string>>, g: seq<string>)
    ensures NonEmpty(picks + [g]) == NonEmpty(picks) + (if g == [] then [] else [g])
  {
    if picks == [] {
      assert picks + [g] == [g];
    } else {
      assert (picks + [g])[1..] == picks[1..] + [g];
      NonEmptySnoc(picks[1..], g);
    }
  }
}
