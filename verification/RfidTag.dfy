/**
 The hint given with a taken rfid_tag: the next number above it that no student has
 (nextFreeRFIDTagSQL in internal/handlers/admin.go). The query only looks at the tag's successor
 and at the successors of taken tags; the theorems say that this finds the least free number.
 */
module RfidTag {
  import opened Wrappers
  import opened Decimal

  const MAX_TAG := 99_999_999_999_999

  /** 1 to 14 ASCII digits, not starting with 0. */
  predicate ValidTag(tag: string) {
    1 <= |tag| <= 14 && tag[0] != '0' && AllDigits(tag)
  }

  /** The numeric tags of the students, as numbers; any other stored text is left out unread. */
  function TakenNumbers(tags: set<string>): set<nat> {
    set t | t in tags && ValidTag(t) :: Value(t)
  }

  function Candidates(tag: string, tags: set<string>): set<nat>
    requires ValidTag(tag)
  {
    {Value(tag) + 1} + set n | n in TakenNumbers(tags) && n > Value(tag) :: n + 1
  }

  predicate Free(n: nat, tags: set<string>) {
    n <= MAX_TAG && Text(n) !in tags
  }

  function NextFree(tag: string, tags: set<string>): Option<string>
    requires ValidTag(tag)
  {
    var free := FreeCandidates(tag, tags);
    if free == {} then None else Some(Text(Least(free)))
  }

  function Least(s: set<nat>): (m: nat)
    requires s != {}
    ensures m in s && forall n :: n in s ==> m <= n
  {
    LeastExists(s);
    var m :| m in s && forall n :: n in s ==> m <= n;
    m
  }

  lemma LeastExists(s: set<nat>)
    requires s != {}
    ensures exists m :: m in s && forall n :: n in s ==> m <= n
  {
    var m := LeastOf(s);
  }

  lemma LeastOf(s: set<nat>) returns (m: nat)
    requires s != {}
    ensures m in s && forall n :: n in s ==> m <= n
  {
    m :| m in s;
    if s != {m} {
      var rest := LeastOf(s - {m});
      assert forall n :: n in s ==> n == m || n in s - {m};
      if rest < m { m := rest; }
    }
  }

  /** A tag in use is exactly the text of its number. */
  lemma TakenIff(n: nat, tags: set<string>)
    requires 0 < n <= MAX_TAG
    ensures Text(n) in tags <==> n in TakenNumbers(tags)
  {
    TextValue(n);
    Pow10Of14();
    TextLength(n, 14);
    if n in TakenNumbers(tags) {
      var t :| t in tags && ValidTag(t) && Value(t) == n;
      ValueText(t);
    }
  }

  /** Every least free number above the tag is a candidate: it follows the tag or a taken number. */
  lemma LeastFreeIsCandidate(tag: string, tags: set<string>, n: nat)
    requires ValidTag(tag)
    requires Value(tag) < n && Free(n, tags)
    requires forall m :: Value(tag) < m < n ==> !Free(m, tags)
    ensures n in Candidates(tag, tags)
  {
    if n != Value(tag) + 1 {
      var p: nat := n - 1;
      assert !Free(p, tags);
      TakenIff(p, tags);
      assert n == p + 1;
    }
  }

  /** Counting down from a free number reaches the least free one. */
  lemma {:induction false} LeastFreeBelow(tag: string, tags: set<string>, n: nat) returns (m: nat)
    requires ValidTag(tag)
    requires Value(tag) < n && Free(n, tags)
    ensures Value(tag) < m <= n && Free(m, tags)
    ensures forall k :: Value(tag) < k < m ==> !Free(k, tags)
    decreases n
  {
    if k: nat :| Value(tag) < k < n && Free(k, tags) {
      m := LeastFreeBelow(tag, tags, k);
    } else {
      m := n;
    }
  }

  /** The candidates that are free. */
  function FreeCandidates(tag: string, tags: set<string>): set<nat>
    requires ValidTag(tag)
  {
    set c | c in Candidates(tag, tags) && Free(c, tags)
  }

  predicate IsLeastFree(tag: string, tags: set<string>, n: nat)
    requires ValidTag(tag)
  {
    Value(tag) < n && Free(n, tags) && forall m :: Value(tag) < m < n ==> !Free(m, tags)
  }

  lemma LeastFreeExists(tag: string, tags: set<string>, n: nat) returns (m: nat)
    requires ValidTag(tag) && Value(tag) < n && Free(n, tags)
    ensures IsLeastFree(tag, tags, m) && m <= n && m in FreeCandidates(tag, tags)
  {
    m := LeastFreeBelow(tag, tags, n);
    LeastFreeIsCandidate(tag, tags, m);
  }

  /** The least candidate is the least free number. */
  lemma LeastCandidate(tag: string, tags: set<string>)
    requires ValidTag(tag) && FreeCandidates(tag, tags) != {}
    ensures IsLeastFree(tag, tags, Least(FreeCandidates(tag, tags)))
  {
    var c := Least(FreeCandidates(tag, tags));
    var m := LeastFreeExists(tag, tags, c);
    assert c <= m;
  }

  lemma LeastUnique(tag: string, tags: set<string>, m: nat, n: nat)
    requires ValidTag(tag) && IsLeastFree(tag, tags, m) && IsLeastFree(tag, tags, n)
    ensures m == n
  {
    assert m < n ==> !Free(m, tags);
    assert n < m ==> !Free(n, tags);
  }

  /**
   The hint is the least number above the tag that has at most 14 digits and is no student's tag;
   there is no hint exactly when no such number exists, whatever text the other tags hold.
   */
  lemma NextFreeIsLeast(tag: string, tags: set<string>)
    requires ValidTag(tag)
    ensures NextFree(tag, tags).None? <==> forall n :: Value(tag) < n ==> !Free(n, tags)
    ensures forall n :: NextFree(tag, tags) == Some(Text(n)) <==> IsLeastFree(tag, tags, n)
  {
    var free := FreeCandidates(tag, tags);
    forall n | Value(tag) < n && Free(n, tags) ensures free != {} { var m := LeastFreeExists(tag, tags, n); }
    if free != {} {
      LeastCandidate(tag, tags);
      forall n ensures NextFree(tag, tags) == Some(Text(n)) <==> IsLeastFree(tag, tags, n) {
        HintIsLeast(tag, tags, n);
      }
    }
  }

  lemma HintIsLeast(tag: string, tags: set<string>, n: nat)
    requires ValidTag(tag) && FreeCandidates(tag, tags) != {}
    ensures NextFree(tag, tags) == Some(Text(n)) <==> IsLeastFree(tag, tags, n)
  {
    var c := Least(FreeCandidates(tag, tags));
    LeastCandidate(tag, tags);
    if Text(n) == Text(c) { TextInjective(n, c); }
    if IsLeastFree(tag, tags, n) { LeastUnique(tag, tags, n, c); }
  }

  /** The hint is itself a tag that could be stored: 1 to 14 digits, not starting with 0. */
  lemma NextFreeIsValid(tag: string, tags: set<string>)
    requires ValidTag(tag) && NextFree(tag, tags).Some?
    ensures ValidTag(NextFree(tag, tags).value) && NextFree(tag, tags).value !in tags
  {
    var free := FreeCandidates(tag, tags);
    TextValue(Least(free));
    Pow10Of14();
    TextLength(Least(free), 14);
  }
}
