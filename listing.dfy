/** What `findMany` with `where`, `orderBy`, `skip` and `take` returns from a
    table held as a map: the rows that satisfy the filter, each exactly once, in
    the order of a sort key, and the window the paging selects. The database's
    order among rows with equal keys is unspecified, so it is left to a ghost
    choice. */
module Listing {
  import opened Common

  /** A row as Prisma returns it: the record together with its id. */
  datatype Row<R> = Row(id: Id, rec: R)

  /** A two-part sort key, compared lexicographically and ascending. A descending
      order on a field is the ascending order on its negation; `orderBy` with two
      fields is the pair. */
  type Key = (int, int)

  predicate KeyLe(a: Key, b: Key) {
    a.0 < b.0 || (a.0 == b.0 && a.1 <= b.1)
  }

  predicate Sorted<T>(s: seq<T>, key: T -> Key) {
    forall i, j :: 0 <= i < j < |s| ==> KeyLe(key(s[i]), key(s[j]))
  }

  /** Inserts `x` into a sorted sequence, keeping it sorted. */
  function Insert<T(!new)>(x: T, s: seq<T>, key: T -> Key): (r: seq<T>)
    requires Sorted(s, key)
    ensures Sorted(r, key)
    ensures multiset(r) == multiset(s) + multiset{x}
    ensures forall y :: y in r <==> y == x || y in s
  {
    if s == [] then [x]
    else if KeyLe(key(x), key(s[0])) then [x] + s
    else
      var rest := Insert(x, s[1..], key);
      assert s == [s[0]] + s[1..];
      assert forall y :: y in rest ==> KeyLe(key(s[0]), key(y));
      [s[0]] + rest
  }

  /** Insertion sort: a sorted permutation of `s`. */
  function SortByKey<T(!new)>(s: seq<T>, key: T -> Key): (r: seq<T>)
    ensures Sorted(r, key)
    ensures multiset(r) == multiset(s)
    ensures |r| == |s|
  {
    if s == [] then []
    else
      assert s == [s[0]] + s[1..];
      Insert(s[0], SortByKey(s[1..], key), key)
  }

  /** Some enumeration of a finite set, each element exactly once. */
  ghost function SeqOfSet<T>(s: set<T>): (r: seq<T>)
    ensures multiset(r) == multiset(s)
    ensures |r| == |s|
    decreases s
  {
    if s == {} then []
    else
      var x :| x in s;
      var r := [x] + SeqOfSet(s - {x});
      assert multiset(s - {x}) + multiset{x} == multiset(s);
      r
  }

  /** The rows of `m` whose record satisfies `keep`. */
  ghost function Matching<R>(m: map<Id, R>, keep: R -> bool): set<Row<R>> {
    set id | id in m && keep(m[id]) :: Row(id, m[id])
  }

  /** `findMany({ where: keep, orderBy: key })`: every matching row exactly once, in key order. */
  ghost function Select<R(!new)>(m: map<Id, R>, keep: R -> bool, key: R -> Key): (r: seq<Row<R>>)
    ensures multiset(r) == multiset(Matching(m, keep))
    ensures |r| == |Matching(m, keep)|
    ensures forall x :: x in r <==> x.id in m && x.rec == m[x.id] && keep(x.rec)
    ensures forall i, j :: 0 <= i < j < |r| ==> KeyLe(key(r[i].rec), key(r[j].rec))
    ensures forall i, j :: 0 <= i < j < |r| ==> r[i].id != r[j].id
  {
    var rows := SortByKey(SeqOfSet(Matching(m, keep)), (x: Row<R>) => key(x.rec));
    SelectedRows(rows, m, keep, key);
    rows
  }

  /** Any ordering of the matching rows by `key` holds each match once, in key order. */
  lemma SelectedRows<R>(rows: seq<Row<R>>, m: map<Id, R>, keep: R -> bool, key: R -> Key)
    requires multiset(rows) == multiset(Matching(m, keep))
    requires Sorted(rows, (x: Row<R>) => key(x.rec))
    ensures forall x :: x in rows <==> x.id in m && x.rec == m[x.id] && keep(x.rec)
    ensures forall i, j :: 0 <= i < j < |rows| ==> KeyLe(key(rows[i].rec), key(rows[j].rec))
    ensures forall i, j :: 0 <= i < j < |rows| ==> rows[i].id != rows[j].id
  {
    assert forall x :: x in rows <==> x in multiset(rows);
    DistinctIds(rows, m, Matching(m, keep));
  }

  /** Rows listed once each from a set, whose records are those of the table,
      carry distinct ids. */
  lemma DistinctIds<R>(rows: seq<Row<R>>, m: map<Id, R>, rowSet: set<Row<R>>)
    requires multiset(rows) == multiset(rowSet)
    requires forall x :: x in rows ==> x.id in m && x.rec == m[x.id]
    ensures forall i, j :: 0 <= i < j < |rows| ==> rows[i].id != rows[j].id
  {
    forall i, j | 0 <= i < j < |rows| ensures rows[i].id != rows[j].id {
      if rows[i].id == rows[j].id {
        assert rows[i] == rows[j];
        CountedTwice(rows, i, j);
        assert false;
      }
    }
  }

  /** An element that occurs at two positions is counted twice. */
  lemma CountedTwice<T>(s: seq<T>, i: nat, j: nat)
    requires i < j < |s| && s[i] == s[j]
    ensures multiset(s)[s[i]] >= 2
  {
    assert s == s[..j] + s[j..];
    assert s[i] in s[..j];
    assert s[j..][0] == s[j];
  }

  /** Sorting a sequence that is already in key order leaves it as it is: the
      database order of rows whose keys already ascend is their given order. */
  lemma {:induction false} SortSortedIdentity<T(!new)>(s: seq<T>, key: T -> Key)
    requires Sorted(s, key)
    ensures SortByKey(s, key) == s
  {
    if s != [] {
      assert Sorted(s[1..], key);
      SortSortedIdentity(s[1..], key);
      assert s == [s[0]] + s[1..];
      if |s| > 1 {
        assert KeyLe(key(s[0]), key(s[1..][0]));
      }
    }
  }

  /** `skip`/`take`: the window of at most `take` elements starting at position `skip`. */
  function Page<T>(s: seq<T>, skip: nat, take: nat): (r: seq<T>)
    ensures |r| == if skip >= |s| then 0 else Min(take, |s| - skip)
    ensures forall i :: 0 <= i < |r| ==> r[i] == s[skip + i]
  {
    if skip >= |s| then [] else s[skip..skip + Min(take, |s| - skip)]
  }

  /** `findMany` with `skip` and `take`: a window of the ordered matching rows,
      still ordered, each row once, each one a matching row of the table. */
  ghost function SelectPage<R(!new)>(m: map<Id, R>, keep: R -> bool, key: R -> Key, skip: nat, take: nat): (r: seq<Row<R>>)
    ensures r == Page(Select(m, keep, key), skip, take)
    ensures |r| <= take
    ensures forall x :: x in r ==> x.id in m && x.rec == m[x.id] && keep(x.rec)
    ensures forall i, j :: 0 <= i < j < |r| ==> KeyLe(key(r[i].rec), key(r[j].rec))
    ensures forall i, j :: 0 <= i < j < |r| ==> r[i].id != r[j].id
  {
    var all := Select(m, keep, key);
    WindowOfSelected(all, m, keep, key, skip, take);
    Page(all, skip, take)
  }

  /** A window of a listing of matching rows in key order, each once, is again one. */
  lemma WindowOfSelected<R>(all: seq<Row<R>>, m: map<Id, R>, keep: R -> bool, key: R -> Key, skip: nat, take: nat)
    requires forall x :: x in all ==> x.id in m && x.rec == m[x.id] && keep(x.rec)
    requires forall i, j :: 0 <= i < j < |all| ==> KeyLe(key(all[i].rec), key(all[j].rec))
    requires forall i, j :: 0 <= i < j < |all| ==> all[i].id != all[j].id
    ensures forall x :: x in Page(all, skip, take) ==> x.id in m && x.rec == m[x.id] && keep(x.rec)
    ensures forall i, j :: 0 <= i < j < |Page(all, skip, take)| ==>
              KeyLe(key(Page(all, skip, take)[i].rec), key(Page(all, skip, take)[j].rec))
    ensures forall i, j :: 0 <= i < j < |Page(all, skip, take)| ==> Page(all, skip, take)[i].id != Page(all, skip, take)[j].id
  {
    var r := Page(all, skip, take);
    forall x | x in r ensures x in all {
      var i :| 0 <= i < |r| && r[i] == x;
      assert r[i] == all[skip + i];
    }
    forall i, j | 0 <= i < j < |r|
      ensures KeyLe(key(r[i].rec), key(r[j].rec)) && r[i].id != r[j].id
    {
      assert r[i] == all[skip + i] && r[j] == all[skip + j];
    }
  }

  /** Consecutive windows join: the window of `take` rows from `skip`, followed
      by the window of `take2` rows that starts where it ends, is the window of
      `take + take2` rows from `skip`. When the first window is cut short by the
      end of the listing, the second one is empty. */
  lemma {:induction false} PagesAdjacent<T>(s: seq<T>, skip: nat, take: nat, take2: nat)
    ensures Page(s, skip, take) + Page(s, skip + take, take2) == Page(s, skip, take + take2)
  {
    var a, b, c := Page(s, skip, take), Page(s, skip + take, take2), Page(s, skip, take + take2);
    if skip + take <= |s| {
      assert |a| == take;
      assert |a + b| == |c|;
      forall i | 0 <= i < |c| ensures (a + b)[i] == c[i] {
        if i >= take {
          assert (a + b)[i] == b[i - take] == s[skip + take + (i - take)];
        }
      }
    } else {
      assert b == [];
      assert a == c;
      assert a + b == a;
    }
  }
  /** Two listings that are consecutive windows of `s`, the second one starting
      at `mid`, join into the window of both sizes. */
  lemma JoinWindows<T>(first: seq<T>, next: seq<T>, s: seq<T>, skip: nat, take: nat, mid: nat, take2: nat)
    requires mid == skip + take
    requires first == Page(s, skip, take) && next == Page(s, mid, take2)
    ensures first + next == Page(s, skip, take + take2)
  {
    PagesAdjacent(s, skip, take, take2);
  }

}
