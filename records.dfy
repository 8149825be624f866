/** The list operations the admin tables share: a record is an id plus the
    fields a form edits, and a table is a list of records that the pages
    replace by id (`map`), shrink by id (`filter`), look up (`find`) and
    extend at the end. */
module Records {
  import opened Js

  datatype Row<T> = Row(id: string, fields: T)

  /** The ids of a table, in order. */
  function Ids<T>(xs: seq<Row<T>>): (ids: seq<string>)
    ensures |ids| == |xs| && forall i :: 0 <= i < |xs| ==> ids[i] == xs[i].id
  {
    if xs == [] then [] else [xs[0].id] + Ids(xs[1..])
  }

  /** No id occurs twice. */
  predicate UniqueIds<T>(xs: seq<Row<T>>)
  {
    forall i, j :: 0 <= i < j < |xs| ==> xs[i].id != xs[j].id
  }

  /** `xs.map(x => x.id === id ? { ...x, ...fields } : x)`. */
  function Replace<T>(xs: seq<Row<T>>, id: string, fields: T): (r: seq<Row<T>>)
    ensures |r| == |xs|
    ensures forall i :: 0 <= i < |xs| ==> r[i].id == xs[i].id
    ensures forall i :: 0 <= i < |xs| ==> r[i].fields == if xs[i].id == id then fields else xs[i].fields
  {
    if xs == [] then []
    else [if xs[0].id == id then Row(xs[0].id, fields) else xs[0]] + Replace(xs[1..], id, fields)
  }

  /** `xs.filter(x => x.id !== id)`. */
  function Remove<T>(xs: seq<Row<T>>, id: string): (r: seq<Row<T>>)
    ensures |r| <= |xs|
    ensures forall i :: 0 <= i < |r| ==> r[i].id != id
  {
    if xs == [] then []
    else (if xs[0].id != id then [xs[0]] else []) + Remove(xs[1..], id)
  }

  /** The index `find` stops at: the first row with the id. */
  function FindIndex<T>(xs: seq<Row<T>>, id: string): (r: Option<nat>)
    ensures r.None? <==> id !in Ids(xs)
    ensures r.Some? ==> r.value < |xs| && xs[r.value].id == id
    ensures r.Some? ==> forall j :: 0 <= j < r.value ==> xs[j].id != id
  {
    if xs == [] then None
    else if xs[0].id == id then Some(0)
    else
      match FindIndex(xs[1..], id)
      case None =>
        assert Ids(xs) == [xs[0].id] + Ids(xs[1..]);
        None
      case Some(k) =>
        assert Ids(xs) == [xs[0].id] + Ids(xs[1..]);
        Some(k + 1)
  }

  /** No row before `k` has the id. */
  predicate FirstWithId<T>(xs: seq<Row<T>>, id: string, k: nat)
  {
    forall j :: 0 <= j < k && j < |xs| ==> xs[j].id != id
  }

  // ------------------------------------------------------------- lemmas

  /** `find` stops at the first row with the id, and fails exactly when no
      row has it. */
  lemma FindIndexIsFirst<T>(xs: seq<Row<T>>, id: string)
    ensures (forall k :: 0 <= k < |xs| ==> xs[k].id != id) <==> FindIndex(xs, id) == None
    ensures forall k :: 0 <= k < |xs| && xs[k].id == id && FirstWithId(xs, id, k) ==> FindIndex(xs, id) == Some(k)
  {
    var r := FindIndex(xs, id);
    forall k | 0 <= k < |xs| && xs[k].id == id
      ensures r.Some? && r.value <= k
      ensures FirstWithId(xs, id, k) ==> r == Some(k)
    {
      assert Ids(xs)[k] == id;
      assert xs[r.value].id == id;
    }
    if r.Some? {
      assert xs[r.value].id == id;
    }
  }

  /** An edit keeps the ids, so it keeps them unique. */
  lemma {:induction false} ReplaceKeepsIds<T>(xs: seq<Row<T>>, id: string, fields: T)
    ensures Ids(Replace(xs, id, fields)) == Ids(xs)
    ensures UniqueIds(xs) ==> UniqueIds(Replace(xs, id, fields))
  {
    var r := Replace(xs, id, fields);
    assert |Ids(r)| == |Ids(xs)|;
    assert forall i :: 0 <= i < |xs| ==> Ids(r)[i] == Ids(xs)[i];
  }

  /** An edit of an id the table does not hold changes nothing. */
  lemma {:induction false} ReplaceAbsent<T>(xs: seq<Row<T>>, id: string, fields: T)
    requires id !in Ids(xs)
    ensures Replace(xs, id, fields) == xs
  {
    var r := Replace(xs, id, fields);
    forall i | 0 <= i < |xs| ensures r[i] == xs[i] {
      assert Ids(xs)[i] == xs[i].id;
    }
  }

  /** With unique ids an edit touches exactly one row, which then holds the
      new fields. */
  lemma ReplaceUnique<T>(xs: seq<Row<T>>, k: nat, fields: T)
    requires UniqueIds(xs) && k < |xs|
    ensures Replace(xs, xs[k].id, fields)[k] == Row(xs[k].id, fields)
    ensures forall i :: 0 <= i < |xs| && i != k ==> Replace(xs, xs[k].id, fields)[i] == xs[i]
  {
    var r := Replace(xs, xs[k].id, fields);
    forall i | 0 <= i < |xs| && i != k ensures r[i] == xs[i] {
      assert xs[i].id != xs[k].id;
      assert r[i].fields == xs[i].fields && r[i].id == xs[i].id;
    }
  }

  /** With unique ids, saving a row with the fields it already has leaves
      the table as it was. */
  lemma ReplaceOwnFields<T>(xs: seq<Row<T>>, k: nat)
    requires UniqueIds(xs) && k < |xs|
    ensures Replace(xs, xs[k].id, xs[k].fields) == xs
  {
    ReplaceUnique(xs, k, xs[k].fields);
  }

  /** Removing by id works list piece by list piece, so it keeps the order of
      the rows it keeps. */
  lemma {:induction false} RemoveSplits<T>(a: seq<Row<T>>, b: seq<Row<T>>, id: string)
    ensures Remove(a + b, id) == Remove(a, id) + Remove(b, id)
  {
    if a == [] {
      assert [] + b == b;
    } else {
      assert (a + b)[0] == a[0];
      assert (a + b)[1..] == a[1..] + b;
      RemoveSplits(a[1..], b, id);
    }
  }

  /** Removing an id the table does not hold changes nothing. */
  lemma {:induction false} RemoveAbsent<T>(xs: seq<Row<T>>, id: string)
    requires id !in Ids(xs)
    ensures Remove(xs, id) == xs
  {
    if xs != [] {
      assert Ids(xs) == [xs[0].id] + Ids(xs[1..]);
      RemoveAbsent(xs[1..], id);
      assert xs == [xs[0]] + xs[1..];
    }
  }

  /** A row survives removal exactly when it was there with another id. */
  lemma {:induction false} RemoveMembers<T>(xs: seq<Row<T>>, id: string, x: Row<T>)
    ensures x in Remove(xs, id) <==> x in xs && x.id != id
  {
    if xs != [] {
      RemoveMembers(xs[1..], id, x);
      assert xs == [xs[0]] + xs[1..];
    }
  }

  /** With unique ids, removing a row's id removes exactly that row. */
  lemma RemoveUnique<T>(xs: seq<Row<T>>, k: nat)
    requires UniqueIds(xs) && k < |xs|
    ensures Remove(xs, xs[k].id) == xs[..k] + xs[k + 1..]
  {
    IdOnlyAt(xs, k);
    SplitAround(xs, k);
    RemoveBetween(xs[..k], xs[k], xs[k + 1..]);
  }

  lemma SplitAround<T>(xs: seq<T>, k: nat)
    requires k < |xs|
    ensures xs == xs[..k] + ([xs[k]] + xs[k + 1..])
  {
    assert [xs[k]] + xs[k + 1..] == xs[k..];
  }

  lemma RemoveBetween<T>(a: seq<Row<T>>, x: Row<T>, b: seq<Row<T>>)
    requires x.id !in Ids(a) && x.id !in Ids(b)
    ensures Remove(a + ([x] + b), x.id) == a + b
  {
    calc {
      Remove(a + ([x] + b), x.id);
      { RemoveSplits(a, [x] + b, x.id); }
      Remove(a, x.id) + Remove([x] + b, x.id);
      { RemoveSplits([x], b, x.id); }
      Remove(a, x.id) + (Remove([x], x.id) + Remove(b, x.id));
      { RemoveAbsent(a, x.id); RemoveAbsent(b, x.id); RemoveOwn(x); }
      a + ([] + b);
      { assert [] + b == b; }
      a + b;
    }
  }

  lemma RemoveOwn<T>(x: Row<T>)
    ensures Remove([x], x.id) == []
  {
    assert [x][1..] == [];
  }

  /** With unique ids, a row's id occurs neither before nor after it. */
  lemma IdOnlyAt<T>(xs: seq<Row<T>>, k: nat)
    requires UniqueIds(xs) && k < |xs|
    ensures xs[k].id !in Ids(xs[..k]) && xs[k].id !in Ids(xs[k + 1..])
  {
    var a, b := xs[..k], xs[k + 1..];
    forall i | 0 <= i < |a| ensures Ids(a)[i] != xs[k].id {
      assert a[i] == xs[i];
    }
    forall i | 0 <= i < |b| ensures Ids(b)[i] != xs[k].id {
      assert b[i] == xs[k + 1 + i];
    }
  }

  /** Removing keeps ids unique. */
  lemma {:induction false} RemoveKeepsUnique<T>(xs: seq<Row<T>>, id: string)
    requires UniqueIds(xs)
    ensures UniqueIds(Remove(xs, id))
  {
    if xs != [] {
      var tail := xs[1..];
      assert UniqueIds(tail) by {
        forall i, j | 0 <= i < j < |tail| ensures tail[i].id != tail[j].id {
          assert tail[i] == xs[i + 1] && tail[j] == xs[j + 1];
        }
      }
      RemoveKeepsUnique(tail, id);
      var rt := Remove(tail, id);
      if xs[0].id != id {
        forall y | y in rt ensures y in tail {
          RemoveMembers(tail, id, y);
        }
        assert forall y :: y in tail ==> y.id != xs[0].id by {
          forall y | y in tail ensures y.id != xs[0].id {
            var j :| 0 <= j < |tail| && tail[j] == y;
            assert xs[j + 1] == y;
          }
        }
        var r := [xs[0]] + rt;
        forall i, j | 0 <= i < j < |r| ensures r[i].id != r[j].id {
          if i == 0 {
            assert r[j] == rt[j - 1] && r[j] in rt;
          } else {
            assert r[i] == rt[i - 1] && r[j] == rt[j - 1];
          }
        }
      }
    }
  }

  /** Appending a row with a fresh id keeps ids unique. */
  lemma AppendFreshKeepsUnique<T>(xs: seq<Row<T>>, row: Row<T>)
    requires UniqueIds(xs) && row.id !in Ids(xs)
    ensures UniqueIds(xs + [row])
  {
    var r := xs + [row];
    forall i, j | 0 <= i < j < |r| ensures r[i].id != r[j].id {
      if j == |xs| {
        assert r[i] == xs[i] && Ids(xs)[i] == xs[i].id;
      } else {
        assert r[i] == xs[i] && r[j] == xs[j];
      }
    }
  }

  /** The id of any row is found, at the row itself when ids are unique. */
  lemma FindUnique<T>(xs: seq<Row<T>>, k: nat)
    requires UniqueIds(xs) && k < |xs|
    ensures FindIndex(xs, xs[k].id) == Some(k)
  {
    assert Ids(xs)[k] == xs[k].id;
    var m := FindIndex(xs, xs[k].id).value;
    assert xs[m].id == xs[k].id;
    assert m <= k && k <= m;
  }
}
