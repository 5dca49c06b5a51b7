/** Recognition of chat-recall commands in `main.py` and the windows of history it shows:
    a query is a recall command when its lower-cased form is one of four fixed phrases or
    contains a match of `last\s+(\d+)\s+chat`. */
module Recall {
  import opened Wrappers
  import opened Text
  import opened Slicing

  /** The fixed phrases, each asking for the last exchange. */
  const RECALL_PHRASES: seq<string> := [
    "show last chat", "last chat", "what was our last conversation?", "i want a last chat"
  ]

  datatype CharClass = Space | Digit

  predicate InClass(c: char, k: CharClass) {
    match k
    case Space => IsSpace(c)
    case Digit => IsDigit(c)
  }

  /** Length of the longest run of class `k` starting at `from`: what a greedy `\s+` or `\d+` consumes. */
  function RunLength(s: string, from: nat, k: CharClass): (n: nat)
    requires from <= |s|
    ensures from + n <= |s|
    decreases |s| - from
  {
    if from < |s| && InClass(s[from], k) then 1 + RunLength(s, from + 1, k) else 0
  }

  /** The greedy run is a run of its class and stops at the end or at a character outside it. */
  lemma {:induction false} RunMaximal(s: string, from: nat, k: CharClass)
    requires from <= |s|
    ensures forall j :: from <= j < from + RunLength(s, from, k) ==> InClass(s[j], k)
    ensures from + RunLength(s, from, k) == |s| || !InClass(s[from + RunLength(s, from, k)], k)
    decreases |s| - from
  {
    if from < |s| && InClass(s[from], k) {
      RunMaximal(s, from + 1, k);
    }
  }

  /** A run that is followed by a character outside its class is the longest run. */
  lemma {:induction false} RunUnique(s: string, from: nat, k: CharClass, m: nat)
    requires from + m <= |s|
    requires forall j :: from <= j < from + m ==> InClass(s[j], k)
    requires from + m == |s| || !InClass(s[from + m], k)
    ensures RunLength(s, from, k) == m
    decreases m
  {
    if m > 0 {
      RunUnique(s, from + 1, k, m - 1);
    }
  }

  /** A non-empty string of class `k`. */
  ghost predicate IsRun(x: string, k: CharClass) {
    |x| >= 1 && forall j :: 0 <= j < |x| ==> InClass(x[j], k)
  }

  /** `s[from:to]` is a non-empty run of class `k`. */
  ghost predicate RunBetween(s: string, from: nat, to: nat, k: CharClass) {
    from < to <= |s| && forall j :: from <= j < to ==> InClass(s[j], k)
  }

  /** `w` occurs in `s` at position `i`. */
  predicate WordAt(s: string, i: nat, w: string) {
    i + |w| <= |s| && s[i..i + |w|] == w
  }

  /** The pattern matches at position `i` of `s` and its group 1 is `digits`: "last" at `i`,
      blanks up to `b`, the digits at `b`, blanks from there up to `e`, and "chat" at `e`. */
  ghost predicate MatchesAt(s: string, i: nat, digits: string) {
    IsRun(digits, Digit) && WordAt(s, i, "last") &&
    exists b: nat, e: nat ::
      RunBetween(s, i + 4, b, Space) && WordAt(s, b, digits) &&
      RunBetween(s, b + |digits|, e, Space) && WordAt(s, e, "chat")
  }

  /** The regular-expression engine's attempt at position `i`: the group-1 digits, if the
      pattern matches there. Because `\s`, `\d` and 'c' are disjoint, each `+` consumes
      its longest run and no backtracking can find another match. */
  function MatchAt(s: string, i: nat): (r: Option<string>)
    requires i <= |s|
  {
    if !WordAt(s, i, "last") then None
    else
      var a := i + 4;
      var gap1 := RunLength(s, a, Space);
      var b := a + gap1;
      var count := RunLength(s, b, Digit);
      var c := b + count;
      var gap2 := RunLength(s, c, Space);
      var e := c + gap2;
      if gap1 >= 1 && count >= 1 && gap2 >= 1 && WordAt(s, e, "chat") then Some(s[b..c]) else None
  }

  /** The positions a successful scan at `i` passes: the digits run from `b` to `c`, the
      second blanks from `c` to `e`, and "chat" follows at `e`. */
  lemma MatchAtRuns(s: string, i: nat) returns (b: nat, c: nat, e: nat)
    requires i <= |s| && MatchAt(s, i).Some?
    ensures WordAt(s, i, "last") && i + 4 < b < c < e <= |s| && WordAt(s, e, "chat")
    ensures RunLength(s, i + 4, Space) == b - (i + 4)
    ensures RunLength(s, b, Digit) == c - b
    ensures RunLength(s, c, Space) == e - c
    ensures MatchAt(s, i) == Some(s[b..c])
  {
    var a := i + 4;
    b := a + RunLength(s, a, Space);
    c := b + RunLength(s, b, Digit);
    e := c + RunLength(s, c, Space);
  }

  /** The group 1 of a match is a non-empty run of digits. */
  lemma MatchDigits(s: string, i: nat)
    requires i <= |s| && MatchAt(s, i).Some?
    ensures |MatchAt(s, i).value| >= 1 && AllDigits(MatchAt(s, i).value)
  {
    var b, c, e := MatchAtRuns(s, i);
    RunMaximal(s, b, Digit);
    forall j | 0 <= j < c - b ensures IsDigit(s[b..c][j]) {
      assert InClass(s[b + j], Digit);
    }
  }

  lemma MatchAtSound(s: string, i: nat)
    requires i <= |s| && MatchAt(s, i).Some?
    ensures MatchesAt(s, i, MatchAt(s, i).value)
  {
    var b, c, e := MatchAtRuns(s, i);
    RunMaximal(s, i + 4, Space);
    RunMaximal(s, b, Digit);
    RunMaximal(s, c, Space);
    var digits := s[b..c];
    forall j | 0 <= j < |digits| ensures InClass(digits[j], Digit) {
      assert digits[j] == s[b + j];
    }
    assert WordAt(s, b, digits);
    assert RunBetween(s, i + 4, b, Space) && RunBetween(s, c, e, Space);
  }

  /** The attempt at `i` succeeds once its three runs and two words are known. */
  lemma MatchAtFromRuns(s: string, i: nat, b: nat, c: nat, e: nat)
    requires WordAt(s, i, "last") && i + 4 < b < c < e <= |s|
    requires RunLength(s, i + 4, Space) == b - (i + 4)
    requires RunLength(s, b, Digit) == c - b
    requires RunLength(s, c, Space) == e - c
    requires WordAt(s, e, "chat")
    ensures MatchAt(s, i) == Some(s[b..c])
  {
  }

  lemma MatchAtComplete(s: string, i: nat, digits: string)
    requires MatchesAt(s, i, digits)
    ensures MatchAt(s, i) == Some(digits)
  {
    var b: nat, e: nat :| RunBetween(s, i + 4, b, Space) && WordAt(s, b, digits) &&
      RunBetween(s, b + |digits|, e, Space) && WordAt(s, e, "chat");
    MatchAtPositions(s, i, digits, b, e);
  }

  lemma MatchAtPositions(s: string, i: nat, digits: string, b: nat, e: nat)
    requires IsRun(digits, Digit) && WordAt(s, i, "last")
    requires RunBetween(s, i + 4, b, Space) && WordAt(s, b, digits)
    requires RunBetween(s, b + |digits|, e, Space) && WordAt(s, e, "chat")
    ensures MatchAt(s, i) == Some(digits)
  {
    var c := b + |digits|;
    assert s[b] == digits[0];
    DigitIsNotSpace(s[b]);
    RunUnique(s, i + 4, Space, b - (i + 4));
    forall j | b <= j < c ensures InClass(s[j], Digit) {
      assert s[j] == digits[j - b];
    }
    DigitIsNotSpace(s[c]);
    RunUnique(s, b, Digit, |digits|);
    assert s[e] == s[e..e + 4][0] == 'c';
    RunUnique(s, c, Space, e - c);
    MatchAtFromRuns(s, i, b, c, e);
    assert s[b..c] == digits;
  }

  /** A match found by `re.search`: where it starts and its group 1. */
  datatype Found = Found(start: nat, digits: string)

  /** `re.search` from position `i` on: the leftmost position where the pattern matches. */
  function SearchFrom(s: string, i: nat): (r: Option<Found>)
    requires i <= |s|
    ensures r.Some? ==> i <= r.value.start <= |s| && MatchAt(s, r.value.start) == Some(r.value.digits)
    ensures r.Some? ==> forall k :: i <= k < r.value.start ==> MatchAt(s, k).None?
    ensures r.None? ==> forall k :: i <= k <= |s| ==> MatchAt(s, k).None?
    decreases |s| - i
  {
    match MatchAt(s, i)
    case Some(d) => Some(Found(i, d))
    case None => if i == |s| then None else SearchFrom(s, i + 1)
  }

  /** `re.search(r'last\s+(\d+)\s+chat', s)`: the leftmost match, or none. */
  function Search(s: string): (r: Option<Found>)
    ensures r.Some? ==> r.value.start <= |s| && MatchAt(s, r.value.start) == Some(r.value.digits)
    ensures r.Some? ==> forall k :: 0 <= k < r.value.start ==> MatchAt(s, k).None?
    ensures r.None? ==> forall k :: 0 <= k <= |s| ==> MatchAt(s, k).None?
  {
    SearchFrom(s, 0)
  }

  /** CPython's default `sys.get_int_max_str_digits()`: `int()` of a longer digit string
      raises ValueError (since Python 3.10.7 and 3.11). */
  const INT_MAX_STR_DIGITS: nat := 4300

  /** How `main.py` reads a submitted query. */
  datatype Command =
    | NotRecall                 // an ordinary question for the coach
    | RecallOf(numPairs: nat)   // a recall command asking for that many exchanges
    | DigitLimitExceeded        // `int(match.group(1))` raises ValueError, outside any try

  /** The command a query is: a recall of 1 exchange for the fixed phrases, a recall of
      `int(match.group(1))` exchanges when the pattern matches, otherwise an ordinary question. */
  function ParseRecall(query: string): (r: Command)
    ensures var s := Lower(query);
      r.NotRecall? ==> s !in RECALL_PHRASES && forall i :: 0 <= i <= |s| ==> MatchAt(s, i).None?
    ensures var s := Lower(query);
      !r.NotRecall? ==> s in RECALL_PHRASES || exists i :: 0 <= i <= |s| && MatchAt(s, i).Some?
  {
    var lowered := Lower(query);
    match Search(lowered)
    case Some(m) =>
      MatchDigits(lowered, m.start);
      if |m.digits| > INT_MAX_STR_DIGITS then DigitLimitExceeded else RecallOf(DigitsValue(m.digits))
    case None =>
      assert forall i :: 0 <= i <= |lowered| ==> MatchAt(lowered, i).None?;
      if lowered in RECALL_PHRASES then RecallOf(1) else NotRecall
  }

  /** A query is a recall command exactly when its lower-cased form is a fixed phrase or
      contains a match of the pattern. */
  lemma RecallRecognised(query: string)
    ensures !ParseRecall(query).NotRecall? <==>
      Lower(query) in RECALL_PHRASES || exists i: nat, d: string :: MatchesAt(Lower(query), i, d)
  {
    var s := Lower(query);
    match Search(s)
    case Some(m) =>
      MatchAtSound(s, m.start);
    case None =>
      forall i: nat, d: string | MatchesAt(s, i, d) ensures false {
        MatchAtComplete(s, i, d);
      }
  }

  /** The count is the value of the digits of the leftmost match; a run of more than
      4300 digits makes `int()` raise instead. */
  lemma LeftmostCount(query: string, i: nat, d: string)
    requires MatchesAt(Lower(query), i, d)
    requires forall j: nat, d': string :: j < i ==> !MatchesAt(Lower(query), j, d')
    ensures |d| <= INT_MAX_STR_DIGITS ==> ParseRecall(query) == RecallOf(DigitsValue(d))
    ensures |d| > INT_MAX_STR_DIGITS ==> ParseRecall(query) == DigitLimitExceeded
  {
    var s := Lower(query);
    MatchAtComplete(s, i, d);
    forall j | 0 <= j < i ensures MatchAt(s, j).None? {
      if MatchAt(s, j).Some? {
        MatchAtSound(s, j);
      }
    }
    LeftmostSearch(s, i, d);
  }

  /** `re.search` returns the first position where the attempt succeeds, with its digits. */
  lemma LeftmostSearch(s: string, i: nat, d: string)
    requires i <= |s| && MatchAt(s, i) == Some(d)
    requires forall j :: 0 <= j < i ==> MatchAt(s, j).None?
    ensures Search(s) == Some(Found(i, d))
  {
    var r := Search(s);
    assert r.Some?;
    assert r.value.start == i;
  }

  /** A string without digits contains no match. */
  lemma NoDigitNoMatch(s: string)
    requires forall j :: 0 <= j < |s| ==> !IsDigit(s[j])
    ensures Search(s) == None
  {
    match Search(s)
    case None =>
    case Some(m) =>
      assert false;
  }

  /** Each fixed phrase asks for exactly one exchange. */
  lemma PhraseCountsOne(query: string)
    requires Lower(query) in RECALL_PHRASES
    ensures ParseRecall(query) == RecallOf(1)
  {
    var s := Lower(query);
    assert forall j :: 0 <= j < |s| ==> !IsDigit(s[j]);
    NoDigitNoMatch(s);
  }

  /** "last <digits> chat" is already lower-case and matches at its start. */
  lemma LastDigitsText(d: string)
    requires |d| >= 1 && AllDigits(d)
    ensures Lower("last " + d + " chat") == "last " + d + " chat"
    ensures MatchesAt("last " + d + " chat", 0, d)
  {
    var q := "last " + d + " chat";
    var e := 6 + |d|;
    assert q[..5] == "last " && q[5..e - 1] == d && q[e - 1..] == " chat";
    forall j | 0 <= j < |q| ensures !IsUpper(q[j]) {
      if j < 5 {
        assert q[j] == q[..5][j];
      } else if j < e - 1 {
        assert q[j] == d[j - 5];
      } else {
        assert q[j] == q[e - 1..][j - (e - 1)];
      }
    }
    LowerIdentity(q);
    assert WordAt(q, 0, "last") && WordAt(q, e, "chat") && WordAt(q, 5, d);
    assert RunBetween(q, 4, 5, Space) && RunBetween(q, e - 1, e, Space);
  }

  /** "last <digits> chat" asks for `int(digits)` exchanges, or raises past 4300 digits. */
  lemma LastDigitsChat(d: string)
    requires |d| >= 1 && AllDigits(d)
    ensures |d| <= INT_MAX_STR_DIGITS ==> ParseRecall("last " + d + " chat") == RecallOf(DigitsValue(d))
    ensures |d| > INT_MAX_STR_DIGITS ==> ParseRecall("last " + d + " chat") == DigitLimitExceeded
  {
    LastDigitsText(d);
    LeftmostCount("last " + d + " chat", 0, d);
  }

  /** "last N chat" asks for N exchanges, for every N whose numeral `int()` accepts, 0 included. */
  lemma LastNChat(n: nat)
    requires |NatToDigits(n)| <= INT_MAX_STR_DIGITS
    ensures ParseRecall("last " + NatToDigits(n) + " chat") == RecallOf(n)
  {
    LastDigitsChat(NatToDigits(n));
    DigitsRoundTrip(n);
  }

  /** What a recall shows. */
  datatype Shown<T> = Entries(entries: seq<T>) | NoPreviousChat

  /** A recall of `numPairs` exchanges over `history`, which it only reads: the entries
      `history[-2*num_pairs:]` when there is a history, otherwise the "no previous chat" notice. */
  function RecallView<T>(history: seq<T>, numPairs: nat): (r: Shown<T>)
    ensures r.NoPreviousChat? <==> history == []
    ensures r.Entries? ==>
      |r.entries| == if numPairs == 0 then |history| else Min(2 * numPairs, |history|)
    ensures r.Entries? ==> r.entries == history[|history| - |r.entries|..]
  {
    LastSlice(history, 2 * numPairs);
    if history == [] then NoPreviousChat else Entries(SliceFrom(history, -2 * numPairs))
  }

  /** The chat display, `chat_history[-10:]`: the last ten entries, all of them when fewer. */
  function DisplayWindow<T>(history: seq<T>): (r: seq<T>)
    ensures |r| == Min(10, |history|)
    ensures r == history[|history| - |r|..]
  {
    LastSlice(history, 10);
    SliceFrom(history, -10)
  }
}
