/**
 * The list query of `GET /eventos`: the caller's rows, most recent
 * `fechaInicio` first.
 */
module Query {
  import opened Eventos

  /** Start times never increase from one element to the next. */
  predicate SortedByStartDesc(s: seq<Evento>) {
    forall i, j :: 0 <= i < j < |s| ==> s[i].fechaInicio >= s[j].fechaInicio
  }

  /** No row occurs twice. */
  ghost predicate Distinct(s: seq<Evento>) {
    forall e :: multiset(s)[e] <= 1
  }

  /** Ids strictly increase from one element to the next. */
  predicate IdsIncreasing(s: seq<Evento>) {
    forall i, j :: 0 <= i < j < |s| ==> s[i].id < s[j].id
  }

  /** Every row is stored under its own id. */
  predicate KeyedById(t: map<int, Evento>) {
    forall id :: id in t ==> t[id].id == id
  }

  /**
   * The rows of the table whose id lies in `[lo, hi)`, in id order (the
   * order rows were inserted in).
   */
  function TableRows(t: map<int, Evento>, lo: int, hi: int): (r: seq<Evento>)
    requires KeyedById(t)
    ensures forall e :: e in r <==> lo <= e.id < hi && e.id in t && t[e.id] == e
    ensures IdsIncreasing(r)
    decreases hi - lo
  {
    if lo >= hi then []
    else if lo in t then [t[lo]] + TableRows(t, lo + 1, hi)
    else TableRows(t, lo + 1, hi)
  }

  /** A sequence whose ids strictly increase holds no row twice. */
  lemma {:induction false} IncreasingIsDistinct(s: seq<Evento>)
    requires IdsIncreasing(s)
    ensures Distinct(s)
  {
    if s != [] {
      IncreasingIsDistinct(s[1..]);
      assert s == [s[0]] + s[1..];
      assert s[0] !in s[1..] by {
        forall k | 0 <= k < |s[1..]| ensures s[1..][k] != s[0] {
          assert s[1..][k] == s[k + 1];
        }
      }
    }
  }

  /** The rows owned by `email`, in their original order. */
  function OwnedBy(rows: seq<Evento>, email: string): (r: seq<Evento>)
    ensures forall e :: e in r <==> e in rows && e.usuarioEmail == email
    ensures multiset(r) <= multiset(rows)
    ensures forall e :: multiset(r)[e] == if e.usuarioEmail == email then multiset(rows)[e] else 0
    ensures (forall e :: e in rows ==> e.usuarioEmail == email) ==> r == rows
  {
    if rows == [] then []
    else
      assert rows == [rows[0]] + rows[1..];
      if rows[0].usuarioEmail == email then [rows[0]] + OwnedBy(rows[1..], email)
      else OwnedBy(rows[1..], email)
  }

  /** Puts `e` in front of the first row that does not start later than it. */
  function InsertByStart(e: Evento, s: seq<Evento>): (r: seq<Evento>)
    requires SortedByStartDesc(s)
    ensures SortedByStartDesc(r)
    ensures multiset(r) == multiset(s) + multiset{e}
    ensures r != [] && (r[0] == e || (s != [] && r[0] == s[0]))
  {
    if s == [] || e.fechaInicio >= s[0].fechaInicio then
      ConsSorted(e, s);
      [e] + s
    else
      var rest := InsertByStart(e, s[1..]);
      ConsSorted(s[0], rest);
      assert s == [s[0]] + s[1..];
      [s[0]] + rest
  }

  /** A row that starts no earlier than the head of a sorted list can be put in front of it. */
  lemma ConsSorted(x: Evento, s: seq<Evento>)
    requires SortedByStartDesc(s)
    requires s != [] ==> x.fechaInicio >= s[0].fechaInicio
    ensures SortedByStartDesc([x] + s)
  {
  }

  /** Orders rows by `fechaInicio`, latest first (insertion sort). */
  function SortByStartDesc(s: seq<Evento>): (r: seq<Evento>)
    ensures SortedByStartDesc(r)
    ensures multiset(r) == multiset(s)
    ensures forall x :: x in r <==> x in s
  {
    if s == [] then []
    else
      assert s == [s[0]] + s[1..];
      var r := InsertByStart(s[0], SortByStartDesc(s[1..]));
      SameMembers(r, s);
      r
  }

  /** Two permutations of each other hold the same rows. */
  lemma SameMembers(a: seq<Evento>, b: seq<Evento>)
    requires multiset(a) == multiset(b)
    ensures forall x :: x in a <==> x in b
  {
    forall x ensures x in a <==> x in b {
      assert x in a <==> x in multiset(a);
      assert x in b <==> x in multiset(b);
    }
  }

  /**
   * `filter_by(usuario_email=email).order_by(desc(fechaInicio))`: exactly the
   * rows of `email`, each as often as in `rows`, latest start first.
   */
  function Listing(rows: seq<Evento>, email: string): (r: seq<Evento>)
    ensures forall e :: e in r <==> e in rows && e.usuarioEmail == email
    ensures SortedByStartDesc(r)
    ensures multiset(r) <= multiset(rows)
    ensures forall e :: multiset(r)[e] == if e.usuarioEmail == email then multiset(rows)[e] else 0
  {
    SortByStartDesc(OwnedBy(rows, email))
  }

  /** Start times strictly decrease from one element to the next. */
  predicate StrictlyByStartDesc(s: seq<Evento>) {
    forall i, j :: 0 <= i < j < |s| ==> s[i].fechaInicio > s[j].fechaInicio
  }

  /**
   * When no two rows share a start time the descending order is unique: any
   * sorted permutation of a strictly descending sequence is that sequence.
   */
  lemma {:induction false} SortedPermutationUnique(r: seq<Evento>, s: seq<Evento>)
    requires SortedByStartDesc(r) && StrictlyByStartDesc(s)
    requires multiset(r) == multiset(s)
    ensures r == s
  {
    assert |r| == |multiset(r)| == |multiset(s)| == |s|;
    if s != [] {
      LatestComesFirst(r, s);
      DropHead(r, s);
      SortedPermutationUnique(r[1..], s[1..]);
      assert r == [r[0]] + r[1..] && s == [s[0]] + s[1..];
    }
  }

  /** Under the same assumptions both sequences begin with the same row. */
  lemma LatestComesFirst(r: seq<Evento>, s: seq<Evento>)
    requires SortedByStartDesc(r) && StrictlyByStartDesc(s)
    requires multiset(r) == multiset(s) && s != [] && r != []
    ensures r[0] == s[0]
  {
    assert s[0] in multiset(r) && r[0] in multiset(s);
    var k :| 0 <= k < |r| && r[k] == s[0];
    var m :| 0 <= m < |s| && s[m] == r[0];
    assert r[0].fechaInicio >= r[k].fechaInicio;
  }

  /** Removing an equal first row from two permutations leaves two permutations. */
  lemma DropHead(r: seq<Evento>, s: seq<Evento>)
    requires r != [] && s != [] && r[0] == s[0] && multiset(r) == multiset(s)
    ensures multiset(r[1..]) == multiset(s[1..])
  {
    var h := r[0];
    assert r == [h] + r[1..] && s == [h] + s[1..];
    assert multiset(r) == multiset{h} + multiset(r[1..]);
    assert multiset(s) == multiset{h} + multiset(s[1..]);
    forall x ensures multiset(r[1..])[x] == multiset(s[1..])[x] {
      assert multiset(r)[x] == multiset{h}[x] + multiset(r[1..])[x];
      assert multiset(s)[x] == multiset{h}[x] + multiset(s[1..])[x];
    }
  }

  /**
   * For one owner whose rows all start at different times, the listing is
   * the strictly descending arrangement of those rows.
   */
  lemma ListingDeterminedByStart(rows: seq<Evento>, email: string, s: seq<Evento>)
    requires forall e :: e in rows ==> e.usuarioEmail == email
    requires StrictlyByStartDesc(s) && multiset(s) == multiset(rows)
    ensures Listing(rows, email) == s
  {
    SortedPermutationUnique(Listing(rows, email), s);
  }

  /** Three rows of one owner with start times T1 < T2 < T3 are listed as T3, T2, T1. */
  lemma ListingNewestFirst(e1: Evento, e2: Evento, e3: Evento, email: string)
    requires e1.usuarioEmail == email && e2.usuarioEmail == email && e3.usuarioEmail == email
    requires e1.fechaInicio < e2.fechaInicio < e3.fechaInicio
    ensures Listing([e1, e2, e3], email) == [e3, e2, e1]
  {
    assert multiset([e3, e2, e1]) == multiset([e1, e2, e3]);
    ListingDeterminedByStart([e1, e2, e3], email, [e3, e2, e1]);
  }
}
