/** The leaderboard: its records, the fallback used when loading it, and the
    order in which `QuizApp.view_leaderboard` shows it. */
module Leaderboard {

  /** One leaderboard record. */
  datatype Entry = Entry(name: string, score: int)

  /** What parsing the leaderboard file gave: a list of records or some other
      value. */
  datatype Parsed = ListValue(entries: seq<Entry>) | OtherValue

  /** What reading the leaderboard file gave. */
  datatype ReadOutcome = FileNotFound | DecodeError | Read(data: Parsed)

  /** The leaderboard in effect after loading: never an error, empty unless the
      file held a list. */
  function LoadLeaderboard(read: ReadOutcome): (board: seq<Entry>)
    ensures read.Read? && read.data.ListValue? ==> board == read.data.entries
    ensures read.FileNotFound? || read.DecodeError? || read == Read(OtherValue) ==> board == []
  {
    match read
    case Read(ListValue(entries)) => entries
    case _ => []
  }

  /** Scores never increase from first to last. */
  predicate SortedDesc(s: seq<Entry>)
  {
    forall i, j :: 0 <= i < j < |s| ==> s[i].score >= s[j].score
  }

  /** The entries of `s` whose score is k, in their order in `s`. */
  function WithScore(s: seq<Entry>, k: int): seq<Entry>
  {
    if s == [] then []
    else (if s[0].score == k then [s[0]] else []) + WithScore(s[1..], k)
  }

  /** `e` placed into the descending sequence `t` ahead of every entry whose
      score is not above its own. */
  function Insert(e: Entry, t: seq<Entry>): (r: seq<Entry>)
    ensures multiset(r) == multiset(t) + multiset{e}
    ensures |r| == |t| + 1 && (r[0] == e || (t != [] && r[0] == t[0]))
    ensures SortedDesc(t) ==> SortedDesc(r)
  {
    if t == [] || e.score >= t[0].score then
      SortedCons(e, t);
      [e] + t
    else
      assert t == [t[0]] + t[1..];
      var u := Insert(e, t[1..]);
      SortedTail(t);
      SortedCons(t[0], u);
      [t[0]] + u
  }

  /** Putting an entry in front of a descending sequence whose head does not
      score above it gives a descending sequence. */
  lemma SortedCons(x: Entry, u: seq<Entry>)
    ensures SortedDesc(u) && (u != [] ==> x.score >= u[0].score) ==> SortedDesc([x] + u)
  {
  }

  /** The tail of a descending sequence is descending. */
  lemma SortedTail(t: seq<Entry>)
    ensures t != [] && SortedDesc(t) ==> SortedDesc(t[1..])
  {
  }

  /** The leaderboard as displayed: ordered by descending score, entries with
      equal scores in their original order. */
  function SortedView(s: seq<Entry>): (r: seq<Entry>)
    ensures multiset(r) == multiset(s)
    ensures SortedDesc(r)
  {
    if s == [] then []
    else
      assert s == [s[0]] + s[1..];
      Insert(s[0], SortedView(s[1..]))
  }

  /** In a descending sequence whose head scores below k, no entry scores k. */
  lemma {:induction false} WithScoreBelow(t: seq<Entry>, k: int)
    requires SortedDesc(t)
    requires t != [] ==> t[0].score < k
    ensures WithScore(t, k) == []
  {
    if t != [] {
      WithScoreBelow(t[1..], k);
    }
  }

  /** Inserting keeps the entries of each score in order, the new one first. */
  lemma {:induction false} InsertStable(e: Entry, t: seq<Entry>, k: int)
    ensures WithScore(Insert(e, t), k) == (if e.score == k then [e] else []) + WithScore(t, k)
  {
    var mine := if e.score == k then [e] else [];
    if t == [] || e.score >= t[0].score {
      assert ([e] + t)[1..] == t;
      assert WithScore([e] + t, k) == mine + WithScore(t, k);
    } else {
      var u, rest := Insert(e, t[1..]), WithScore(t[1..], k);
      var head := if t[0].score == k then [t[0]] else [];
      assert Insert(e, t) == [t[0]] + u;
      assert ([t[0]] + u)[1..] == u;
      assert WithScore([t[0]] + u, k) == head + WithScore(u, k);
      InsertStable(e, t[1..], k);
      assert WithScore(t, k) == head + rest;
      if e.score == k {
        assert head == [];
      } else {
        assert mine == [];
      }
      assert head + (mine + rest) == mine + (head + rest);
    }
  }

  /** Stability: for every score, the entries holding it appear in the view in
      the order they had on the leaderboard. */
  lemma {:induction false} SortedViewStable(s: seq<Entry>, k: int)
    ensures WithScore(SortedView(s), k) == WithScore(s, k)
  {
    if s != [] {
      SortedViewStable(s[1..], k);
      InsertStable(s[0], SortedView(s[1..]), k);
    }
  }

  /** A leaderboard already in display order is shown unchanged. */
  lemma {:induction false} SortedViewOfSorted(s: seq<Entry>)
    requires SortedDesc(s)
    ensures SortedView(s) == s
  {
    if s != [] {
      SortedViewOfSorted(s[1..]);
    }
  }

  /** Sorting the view again gives the same view. */
  lemma SortedViewIdempotent(s: seq<Entry>)
    ensures SortedView(SortedView(s)) == SortedView(s)
  {
    SortedViewOfSorted(SortedView(s));
  }

  /** Two descending sequences that agree on the entries of every score are
      equal: a stable descending sort has only one possible result. */
  lemma {:induction false} StableOrderUnique(r: seq<Entry>, q: seq<Entry>)
    requires SortedDesc(r) && SortedDesc(q)
    requires forall k :: WithScore(r, k) == WithScore(q, k)
    ensures r == q
  {
    if r == [] || q == [] {
      HeadScorePresent(r);
      HeadScorePresent(q);
    } else {
      var m, m' := r[0].score, q[0].score;
      assert WithScore(r, m) == [r[0]] + WithScore(r[1..], m);
      assert WithScore(q, m') == [q[0]] + WithScore(q[1..], m');
      HeadHasTopScore(r, m');
      HeadHasTopScore(q, m);
      assert m == m';
      assert r[0] == WithScore(r, m)[0] == WithScore(q, m)[0] == q[0];
      forall k ensures WithScore(r[1..], k) == WithScore(q[1..], k) {
        var x, y := WithScore(r[1..], k), WithScore(q[1..], k);
        assert WithScore(r, k) == WithScore(q, k);
        if m == k {
          assert WithScore(r, k) == [r[0]] + x;
          assert WithScore(q, k) == [q[0]] + y;
          assert ([r[0]] + x)[1..] == x;
          assert ([q[0]] + y)[1..] == y;
        } else {
          assert WithScore(r, k) == [] + x == x;
          assert WithScore(q, k) == [] + y == y;
        }
      }
      StableOrderUnique(r[1..], q[1..]);
      assert r == [r[0]] + r[1..];
      assert q == [q[0]] + q[1..];
    }
  }

  /** A non-empty sequence holds an entry with the score of its head. */
  lemma HeadScorePresent(t: seq<Entry>)
    ensures t != [] ==> WithScore(t, t[0].score) != []
  {
  }

  /** When a descending sequence holds an entry of score k, its head scores at
      least k. */
  lemma {:induction false} HeadHasTopScore(t: seq<Entry>, k: int)
    requires SortedDesc(t)
    requires WithScore(t, k) != []
    ensures t != [] && t[0].score >= k
  {
    if t != [] && t[0].score < k {
      WithScoreBelow(t, k);
    }
  }

  /** SortedView is exactly the stable descending order of the leaderboard. */
  lemma SortedViewIsStableSort(s: seq<Entry>, r: seq<Entry>)
    requires SortedDesc(r)
    requires forall k :: WithScore(r, k) == WithScore(s, k)
    ensures r == SortedView(s)
  {
    forall k ensures WithScore(r, k) == WithScore(SortedView(s), k) {
      SortedViewStable(s, k);
    }
    StableOrderUnique(r, SortedView(s));
  }

  /** Ann (5), Bo (9) and Cy (5), recorded in that order, are shown as Bo,
      Ann, Cy. */
  lemma ThreeEntryExample()
    ensures SortedView([Entry("Ann", 5), Entry("Bo", 9), Entry("Cy", 5)]) ==
              [Entry("Bo", 9), Entry("Ann", 5), Entry("Cy", 5)]
  {
  }
}
