/**
 * The leaderboard rules of gametest.java: an entry and its text form, the
 * ordering `Collections.sort` produces with the reversed score comparator
 * (stable, highest score first), the local top-10 store, and the list the
 * leaderboard dialog shows. The network and the serialised file are inputs
 * and outputs here.
 */
module Leaderboard {

  /** Number of entries the local store keeps. */
  const LocalCapacity := 10

  /** `LeaderboardEntry`; the two getters are the field selectors. */
  datatype Entry = Entry(playerName: string, score: int)

  // ---------------------------------------------------------------------------
  // Text form: LeaderboardEntry.toString
  // ---------------------------------------------------------------------------

  predicate IsDigit(c: char) {
    '0' <= c <= '9'
  }

  function DigitChar(d: nat): (c: char)
    requires d < 10
    ensures IsDigit(c) && c as int - '0' as int == d
  {
    ('0' as int + d) as char
  }

  /** Decimal digits of `n`, without leading zeros. */
  function NatToString(n: nat): (s: string)
    ensures |s| >= 1 && AllDigits(s)
    ensures s[0] == '0' ==> n == 0
    ensures |s| > 1 ==> s[0] != '0'
  {
    if n < 10 then [DigitChar(n)] else NatToString(n / 10) + [DigitChar(n % 10)]
  }

  /** Java's decimal rendering of an `int`: a minus sign for negative values. */
  function IntToString(n: int): string {
    if n < 0 then "-" + NatToString(-n) else NatToString(n)
  }

  predicate AllDigits(s: string) {
    forall k :: 0 <= k < |s| ==> IsDigit(s[k])
  }

  /** The value of a string of decimal digits. */
  function DigitsValue(s: string): int
    requires AllDigits(s)
  {
    if s == [] then 0 else DigitsValue(s[..|s| - 1]) * 10 + (s[|s| - 1] as int - '0' as int)
  }

  /** The text after an optional leading minus sign. */
  function Unsigned(s: string): string {
    if |s| > 0 && s[0] == '-' then s[1..] else s
  }

  /** An optional minus sign followed by at least one digit. */
  predicate IsIntText(s: string) {
    |Unsigned(s)| > 0 && AllDigits(Unsigned(s))
  }

  /** The form `Integer.toString` produces: no leading zero, and no minus sign before zero. */
  predicate IsCanonicalIntText(s: string) {
    && IsIntText(s)
    && (|Unsigned(s)| > 1 ==> Unsigned(s)[0] != '0')
    && (s[0] == '-' ==> Unsigned(s) != "0")
  }

  /** Reads back a decimal integer, as `Integer.parseInt` does on well-formed text. */
  function ParseInt(s: string): int
    requires IsIntText(s)
  {
    if s[0] == '-' then -DigitsValue(Unsigned(s)) else DigitsValue(Unsigned(s))
  }

  lemma {:induction false} NatToStringRoundTrip(n: nat)
    ensures DigitsValue(NatToString(n)) == n
  {
    if n >= 10 {
      NatToStringRoundTrip(n / 10);
      var s := NatToString(n);
      assert s[..|s| - 1] == NatToString(n / 10);
    }
  }

  /** The decimal rendering of an integer is canonical and reads back as that integer. */
  lemma IntToStringRoundTrip(n: int)
    ensures IsCanonicalIntText(IntToString(n)) && ParseInt(IntToString(n)) == n
  {
    var t := IntToString(n);
    if n < 0 {
      NatToStringRoundTrip(-n);
      assert t[0] == '-' && t[1..] == NatToString(-n);
      assert Unsigned(t) == NatToString(-n);
    } else {
      NatToStringRoundTrip(n);
      assert IsDigit(t[0]);
      assert Unsigned(t) == t;
    }
  }

  /** `toString`: the name, a colon and a space, then the score. */
  function ToString(e: Entry): string {
    e.playerName + ": " + IntToString(e.score)
  }

  /**
   * The text of an entry starts with the name; after the ": " that follows
   * it comes the canonical decimal text of the score, which reads back.
   */
  lemma ToStringShowsEntry(e: Entry)
    ensures var t := ToString(e); var n := |e.playerName|;
      && |t| > n + 2
      && t[..n] == e.playerName
      && t[n..n + 2] == ": "
      && IsCanonicalIntText(t[n + 2..]) && ParseInt(t[n + 2..]) == e.score
  {
    var t := ToString(e);
    var n := |e.playerName|;
    assert t[n + 2..] == IntToString(e.score);
    IntToStringRoundTrip(e.score);
  }

  // ---------------------------------------------------------------------------
  // Ordering: Collections.sort with Comparator.comparing(getScore).reversed()
  // ---------------------------------------------------------------------------

  /** Highest score first. */
  predicate SortedDesc(s: seq<Entry>) {
    forall i, j :: 0 <= i < j < |s| ==> s[i].score >= s[j].score
  }

  /** The entries of `s` that have score `k`, in their order in `s`. */
  function WithScore(s: seq<Entry>, k: int): seq<Entry> {
    if s == [] then []
    else (if s[0].score == k then [s[0]] else []) + WithScore(s[1..], k)
  }

  /** Inserts `e` into a list sorted highest first, after every entry that scores at least as much. */
  function Insert(s: seq<Entry>, e: Entry): (r: seq<Entry>)
    ensures |r| == |s| + 1
  {
    if s == [] then [e]
    else if s[0].score >= e.score then [s[0]] + Insert(s[1..], e)
    else [e] + s
  }

  /**
   * The list `Collections.sort` leaves: a stable sort by descending score,
   * here as insertion of each entry, in input order, into the sorted prefix.
   */
  function SortByScore(s: seq<Entry>): (r: seq<Entry>)
    ensures |r| == |s|
  {
    if s == [] then [] else Insert(SortByScore(s[..|s| - 1]), s[|s| - 1])
  }

  lemma {:induction false} WithScoreAppend(s: seq<Entry>, t: seq<Entry>, k: int)
    ensures WithScore(s + t, k) == WithScore(s, k) + WithScore(t, k)
  {
    if s != [] {
      var head := if s[0].score == k then [s[0]] else [];
      assert (s + t)[0] == s[0] && (s + t)[1..] == s[1..] + t;
      WithScoreAppend(s[1..], t, k);
      calc {
        WithScore(s + t, k);
        head + WithScore(s[1..] + t, k);
        head + (WithScore(s[1..], k) + WithScore(t, k));
        (head + WithScore(s[1..], k)) + WithScore(t, k);
        WithScore(s, k) + WithScore(t, k);
      }
    } else {
      assert s + t == t;
    }
  }

  /** A sorted list whose first score is below `k` holds no entry with score `k`. */
  lemma {:induction false} WithScoreBelow(s: seq<Entry>, k: int)
    requires SortedDesc(s) && (s == [] || s[0].score < k)
    ensures WithScore(s, k) == []
  {
    if s != [] {
      assert SortedDesc(s[1..]);
      assert |s| > 1 ==> s[1..][0].score <= s[0].score;
      WithScoreBelow(s[1..], k);
    }
  }

  lemma {:induction false} InsertSorted(s: seq<Entry>, e: Entry)
    requires SortedDesc(s)
    ensures SortedDesc(Insert(s, e))
    ensures Insert(s, e) != [] && Insert(s, e)[0].score >= (if s == [] then e.score else Min(s[0].score, e.score))
  {
    if s != [] && s[0].score >= e.score {
      assert SortedDesc(s[1..]);
      InsertSorted(s[1..], e);
    }
  }

  function Min(a: int, b: int): int {
    if a <= b then a else b
  }

  lemma {:induction false} InsertPermutes(s: seq<Entry>, e: Entry)
    ensures multiset(Insert(s, e)) == multiset(s) + multiset{e}
  {
    if s != [] && s[0].score >= e.score {
      InsertPermutes(s[1..], e);
      assert s == [s[0]] + s[1..];
    }
  }

  lemma {:induction false} InsertKeepsTies(s: seq<Entry>, e: Entry, k: int)
    requires SortedDesc(s)
    ensures WithScore(Insert(s, e), k) == WithScore(s, k) + WithScore([e], k)
  {
    if s != [] {
      if s[0].score >= e.score {
        assert SortedDesc(s[1..]);
        InsertKeepsTies(s[1..], e, k);
        WithScoreAppend([s[0]], Insert(s[1..], e), k);
        WithScoreAppend([s[0]], s[1..], k);
        assert s == [s[0]] + s[1..];
      } else {
        WithScoreAppend([e], s, k);
        if k == e.score {
          WithScoreBelow(s, k);
        }
      }
    }
  }

  /** The sort yields a list sorted highest first. */
  lemma {:induction false} SortByScoreSorts(s: seq<Entry>)
    ensures SortedDesc(SortByScore(s))
  {
    if s != [] {
      SortByScoreSorts(s[..|s| - 1]);
      InsertSorted(SortByScore(s[..|s| - 1]), s[|s| - 1]);
    }
  }

  /** The sort yields the same entries, each as often. */
  lemma {:induction false} SortByScorePermutes(s: seq<Entry>)
    ensures multiset(SortByScore(s)) == multiset(s)
  {
    if s != [] {
      var init, last := s[..|s| - 1], s[|s| - 1];
      SortByScorePermutes(init);
      InsertPermutes(SortByScore(init), last);
      assert s == init + [last];
    }
  }

  /** The sort is stable: the entries of any one score keep their input order. */
  lemma {:induction false} SortByScoreIsStable(s: seq<Entry>, k: int)
    ensures WithScore(SortByScore(s), k) == WithScore(s, k)
  {
    if s != [] {
      var init, last := s[..|s| - 1], s[|s| - 1];
      SortByScoreIsStable(init, k);
      SortByScoreSorts(init);
      InsertKeepsTies(SortByScore(init), last, k);
      assert s == init + [last];
      WithScoreAppend(init, [last], k);
    }
  }

  /**
   * The sort yields a list sorted highest first, holding the same entries,
   * and keeps entries of equal score in their input order.
   */
  lemma SortByScoreFacts(s: seq<Entry>)
    ensures SortedDesc(SortByScore(s))
    ensures multiset(SortByScore(s)) == multiset(s)
    ensures forall k :: WithScore(SortByScore(s), k) == WithScore(s, k)
  {
    SortByScoreSorts(s);
    SortByScorePermutes(s);
    forall k ensures WithScore(SortByScore(s), k) == WithScore(s, k) {
      SortByScoreIsStable(s, k);
    }
  }

  /** On a list already sorted highest first, inserting at the end is appending. */
  lemma {:induction false} InsertLowest(s: seq<Entry>, e: Entry)
    requires forall i :: 0 <= i < |s| ==> s[i].score >= e.score
    ensures Insert(s, e) == s + [e]
  {
    if s != [] {
      InsertLowest(s[1..], e);
    }
  }

  /** The sort leaves a list already sorted highest first as it is. */
  lemma {:induction false} SortByScoreKeepsSorted(s: seq<Entry>)
    requires SortedDesc(s)
    ensures SortByScore(s) == s
  {
    if s != [] {
      var init := s[..|s| - 1];
      SortByScoreKeepsSorted(init);
      InsertLowest(init, s[|s| - 1]);
    }
  }

  // ---------------------------------------------------------------------------
  // LeaderboardManager.saveLocalScore and getTopScores
  // ---------------------------------------------------------------------------

  /** The first `LocalCapacity` entries, or all of them if there are fewer. */
  function TopOf(s: seq<Entry>): seq<Entry> {
    if |s| > LocalCapacity then s[..LocalCapacity] else s
  }

  /**
   * `saveLocalScore`: `loaded` is what `loadLocalScores` read from the file
   * (empty if there was none or it could not be read); the result is what is
   * written back. It is the stable highest-first order of the old entries
   * followed by the new one, cut to the first ten.
   */
  method SaveLocalScore(loaded: seq<Entry>, playerName: string, score: int) returns (written: seq<Entry>)
    ensures var all := loaded + [Entry(playerName, score)];
      && |written| == (if |all| > LocalCapacity then LocalCapacity else |all|)
      && written == SortByScore(all)[..|written|]
    ensures SortedDesc(written)
    ensures multiset(written) <= multiset(loaded) + multiset{Entry(playerName, score)}
  {
    var scores := loaded;
    scores := scores + [Entry(playerName, score)];
    ghost var all := scores;
    scores := SortByScore(scores);
    SortByScoreFacts(all);
    if |scores| > LocalCapacity {
      scores := scores[..LocalCapacity];
      assert SortByScore(all) == scores + SortByScore(all)[LocalCapacity..];
    }
    written := scores;
  }

  /**
   * Saving to a file that is already sorted highest first (as every file this
   * method writes is) puts the new entry below every entry with an equal or
   * higher score: older entries win ties.
   */
  lemma SaveIntoSortedFile(loaded: seq<Entry>, e: Entry)
    requires SortedDesc(loaded)
    ensures SortByScore(loaded + [e]) == Insert(loaded, e)
  {
    var all := loaded + [e];
    assert all[..|all| - 1] == loaded;
    SortByScoreKeepsSorted(loaded);
  }

  /**
   * `getTopScores`, with the network and the file as inputs: `fetched` is
   * what was read from the server's reply before any failure, `failed` says
   * whether an exception ended the request, and `local` is what
   * `loadLocalScores` reads. The file is read after a failure and again if
   * the list is still empty; the result is sorted highest first.
   */
  method GetTopScores(fetched: seq<Entry>, failed: bool, local: seq<Entry>) returns (scores: seq<Entry>)
    ensures var gathered := if failed then fetched + local else fetched;
      var listed := if gathered == [] then local else gathered;
      && SortedDesc(scores)
      && multiset(scores) == multiset(listed)
      && forall k :: WithScore(scores, k) == WithScore(listed, k)
  {
    scores := fetched;
    if failed {
      scores := scores + local;
    }
    if scores == [] {
      scores := scores + local;
    }
    ghost var listed := scores;
    assert listed == (if (if failed then fetched + local else fetched) == [] then local else (if failed then fetched + local else fetched));
    scores := SortByScore(scores);
    SortByScoreFacts(listed);
  }
}
