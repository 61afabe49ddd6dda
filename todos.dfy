/** The todo records and the three updater functions the client hands to
    `setTodos`: prepend (create), replace by id (toggle) and filter by id
    (delete), with the properties that relate them. */
module Todos {

  /** One record as the server returns it. The server assigns `id`. */
  datatype Todo = Todo(id: int, title: string, completed: bool)

  /** No two records of `s` share an id. The server intends this; the client
      never checks it. */
  ghost predicate UniqueIds(s: seq<Todo>) {
    forall i, j :: 0 <= i < j < |s| ==> s[i].id != s[j].id
  }

  /** Some record of `s` has id `id`. */
  ghost predicate HasId(s: seq<Todo>, id: int) {
    exists i :: 0 <= i < |s| && s[i].id == id
  }

  /** How many records of `s` have id `id`. */
  function CountId(s: seq<Todo>, id: int): (n: nat)
    ensures n <= |s|
    ensures n == 0 <==> !HasId(s, id)
  {
    if s == [] then 0
    else
      assert forall i :: 1 <= i < |s| ==> s[i] == s[1..][i - 1];
      (if s[0].id == id then 1 else 0) + CountId(s[1..], id)
  }

  /** `s` can be obtained from `t` by dropping some of its records, keeping the
      order of the rest. */
  ghost predicate IsSubsequence(s: seq<Todo>, t: seq<Todo>)
    decreases |t|
  {
    if s == [] then true
    else if t == [] then false
    else (s[0] == t[0] && IsSubsequence(s[1..], t[1..])) || IsSubsequence(s, t[1..])
  }

  // ---------------------------------------------------------------------------
  // Create: `[todo, ...prev]`

  /** The record the server created goes first; every old record moves one
      place down, in its old order. */
  function Prepend(todo: Todo, prev: seq<Todo>): (r: seq<Todo>)
    ensures |r| == |prev| + 1
    ensures r[0] == todo
    ensures forall i :: 0 <= i < |prev| ==> r[i + 1] == prev[i]
  {
    [todo] + prev
  }

  /** A created record with a fresh id keeps the ids unique. */
  lemma PrependKeepsUnique(todo: Todo, prev: seq<Todo>)
    requires UniqueIds(prev) && !HasId(prev, todo.id)
    ensures UniqueIds(Prepend(todo, prev))
  {
  }

  // ---------------------------------------------------------------------------
  // Toggle: `prev.map((t) => (t.id === updated.id ? updated : t))`

  /** Every record whose id is `updated.id` becomes `updated`; every other
      record stays where it was, unchanged. */
  function ReplaceById(prev: seq<Todo>, updated: Todo): (r: seq<Todo>)
    ensures |r| == |prev|
    ensures forall i :: 0 <= i < |prev| && prev[i].id == updated.id ==> r[i] == updated
    ensures forall i :: 0 <= i < |prev| && prev[i].id != updated.id ==> r[i] == prev[i]
  {
    if prev == [] then []
    else
      var rest := ReplaceById(prev[1..], updated);
      assert forall i :: 1 <= i < |prev| ==> prev[i] == prev[1..][i - 1];
      [if prev[0].id == updated.id then updated else prev[0]] + rest
  }

  /** Replacing never changes which id sits at which position. */
  lemma ReplaceKeepsIds(prev: seq<Todo>, updated: Todo)
    ensures forall i :: 0 <= i < |prev| ==> ReplaceById(prev, updated)[i].id == prev[i].id
    ensures UniqueIds(prev) ==> UniqueIds(ReplaceById(prev, updated))
  {
  }

  /** A reply whose id is not in the list leaves the list exactly as it was. */
  lemma ReplaceUnknownIsIdentity(prev: seq<Todo>, updated: Todo)
    requires !HasId(prev, updated.id)
    ensures ReplaceById(prev, updated) == prev
  {
  }

  /** Applying the same reply twice is the same as applying it once. */
  lemma ReplaceIdempotent(prev: seq<Todo>, updated: Todo)
    ensures ReplaceById(ReplaceById(prev, updated), updated) == ReplaceById(prev, updated)
  {
  }

  /** With unique ids, a toggle that the server answers with the flipped
      record changes the `completed` flag of exactly that record and nothing
      else. */
  lemma ToggleFlipsExactlyOne(prev: seq<Todo>, i: nat)
    requires UniqueIds(prev) && i < |prev|
    ensures var updated := prev[i].(completed := !prev[i].completed);
            var r := ReplaceById(prev, updated);
            && |r| == |prev|
            && r[i].completed == !prev[i].completed
            && r[i].id == prev[i].id && r[i].title == prev[i].title
            && forall j :: 0 <= j < |prev| && j != i ==> r[j] == prev[j]
  {
  }

  // ---------------------------------------------------------------------------
  // Delete: `prev.filter((t) => t.id !== todoId)`

  /** The records of `prev` whose id is not `id`, in their old order. */
  function RemoveById(prev: seq<Todo>, id: int): (r: seq<Todo>)
    ensures |r| <= |prev|
    ensures forall t :: t in r <==> t in prev && t.id != id
  {
    if prev == [] then []
    else
      var rest := RemoveById(prev[1..], id);
      assert forall t :: t in prev <==> t == prev[0] || t in prev[1..];
      if prev[0].id == id then rest else [prev[0]] + rest
  }

  /** Exactly the records with id `id` are dropped. */
  lemma {:induction false} RemoveCount(prev: seq<Todo>, id: int)
    ensures |RemoveById(prev, id)| == |prev| - CountId(prev, id)
  {
    if prev != [] {
      RemoveCount(prev[1..], id);
    }
  }

  /** The kept records appear in `prev`, in the same relative order. */
  lemma {:induction false} RemoveIsSubsequence(prev: seq<Todo>, id: int)
    ensures IsSubsequence(RemoveById(prev, id), prev)
  {
    if prev != [] {
      RemoveIsSubsequence(prev[1..], id);
      var rest := RemoveById(prev[1..], id);
      if prev[0].id != id {
        assert ([prev[0]] + rest)[1..] == rest;
      }
    }
  }

  /** An ordered selection from `t` that avoids id `id` has at most as many
      records as `t` has records with other ids. */
  lemma {:induction false} SubsequenceBound(s: seq<Todo>, t: seq<Todo>, id: int)
    requires IsSubsequence(s, t)
    requires forall i :: 0 <= i < |s| ==> s[i].id != id
    ensures |s| <= |t| - CountId(t, id)
    decreases |t|
  {
    if s != [] {
      if s[0] == t[0] && IsSubsequence(s[1..], t[1..]) {
        SubsequenceBound(s[1..], t[1..], id);
      } else {
        SubsequenceBound(s, t[1..], id);
      }
    }
  }

  /** Filtering is characterised without reference to its definition: the
      only ordered selection from `prev` that avoids id `id` and keeps every
      record with another id is `RemoveById(prev, id)`. */
  lemma {:induction false} RemoveIsTheOnlySelection(prev: seq<Todo>, id: int, s: seq<Todo>)
    requires IsSubsequence(s, prev)
    requires forall i :: 0 <= i < |s| ==> s[i].id != id
    requires |s| == |prev| - CountId(prev, id)
    ensures s == RemoveById(prev, id)
    decreases |prev|
  {
    RemoveCount(prev, id);
    if s != [] {
      var rest := prev[1..];
      assert prev != [];
      assert CountId(prev, id) == (if prev[0].id == id then 1 else 0) + CountId(rest, id);
      if prev[0].id == id {
        assert s[0] != prev[0];
        assert IsSubsequence(s, rest);
        RemoveIsTheOnlySelection(rest, id, s);
        assert RemoveById(prev, id) == RemoveById(rest, id);
      } else if s[0] == prev[0] && IsSubsequence(s[1..], rest) {
        var tail := s[1..];
        assert forall i :: 0 <= i < |tail| ==> tail[i] == s[i + 1];
        RemoveIsTheOnlySelection(rest, id, tail);
        assert RemoveById(prev, id) == [prev[0]] + RemoveById(rest, id);
        assert s == [s[0]] + tail;
      } else {
        assert IsSubsequence(s, rest);
        SubsequenceBound(s, rest, id);
        assert false;
      }
    }
  }

  /** Nothing to drop: a list without id `id` comes back unchanged. */
  lemma {:induction false} RemoveAbsentIsIdentity(prev: seq<Todo>, id: int)
    requires !HasId(prev, id)
    ensures RemoveById(prev, id) == prev
  {
    if prev != [] {
      assert prev[0].id != id;
      assert !HasId(prev[1..], id) by {
        forall i | 0 <= i < |prev[1..]| ensures prev[1..][i].id != id {
          assert prev[1..][i] == prev[i + 1];
        }
      }
      RemoveAbsentIsIdentity(prev[1..], id);
      assert prev == [prev[0]] + prev[1..];
    }
  }

  /** Deleting twice gives the same list as deleting once. */
  lemma RemoveIdempotent(prev: seq<Todo>, id: int)
    ensures RemoveById(RemoveById(prev, id), id) == RemoveById(prev, id)
  {
  }

  /** Deleting keeps the ids unique. */
  lemma {:induction false} RemoveKeepsUnique(prev: seq<Todo>, id: int)
    requires UniqueIds(prev)
    ensures UniqueIds(RemoveById(prev, id))
  {
    if prev != [] {
      var rest := prev[1..];
      assert UniqueIds(rest) by {
        forall i, j | 0 <= i < j < |rest| ensures rest[i].id != rest[j].id {
          assert rest[i] == prev[i + 1] && rest[j] == prev[j + 1];
        }
      }
      RemoveKeepsUnique(rest, id);
      var r := RemoveById(rest, id);
      if prev[0].id != id {
        var full := [prev[0]] + r;
        forall i, j | 0 <= i < j < |full| ensures full[i].id != full[j].id {
          if i == 0 {
            assert full[j] == r[j - 1] && full[j] in rest;
            var k :| 0 <= k < |rest| && rest[k] == full[j];
            assert prev[k + 1] == rest[k];
          } else {
            assert full[i] == r[i - 1] && full[j] == r[j - 1];
          }
        }
      }
    }
  }

  /** Deleting a record just created with a fresh id restores the old list. */
  lemma {:induction false} RemoveUndoesPrepend(todo: Todo, prev: seq<Todo>)
    requires !HasId(prev, todo.id)
    ensures RemoveById(Prepend(todo, prev), todo.id) == prev
  {
    var r := Prepend(todo, prev);
    assert r[1..] == prev;
    RemoveAbsentIsIdentity(prev, todo.id);
  }
}
