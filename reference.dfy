/**
 * Booking references, `FP-<yyyymmdd>-<hhmm>-<code>`: the UTC clock reading
 * formatted with `%Y%m%d-%H%M` and four characters drawn from A-Z and 0-9
 * (app.py:16-21). The clock and the random draw are not modelled as
 * effects: each attempt of the retry loop is one `Draw` supplied by the
 * caller.
 */
module Reference {
  import opened Wrappers
  import opened Models

  /** `string.ascii_uppercase + string.digits`. */
  const Alphabet: string := "ABCDEFGHIJKLMNOPQRSTUVWXYZ0123456789"

  /** What one attempt of the generator reads: the clock, and the four random characters. */
  datatype Draw = Draw(now: Timestamp, code: string)

  /** What `datetime.utcnow()` and `random.choices(..., k=4)` can return. */
  predicate ValidDraw(d: Draw)
  {
    ValidTimestamp(d.now) && |d.code| == 4 && forall i :: 0 <= i < |d.code| ==> d.code[i] in Alphabet
  }

  predicate IsDigit(c: char)
  {
    '0' <= c <= '9'
  }

  predicate AllDigits(s: string)
  {
    forall i :: 0 <= i < |s| ==> IsDigit(s[i])
  }

  function Pow10(k: nat): (p: nat)
    ensures p >= 1
  {
    if k == 0 then 1 else 10 * Pow10(k - 1)
  }

  /** `n` in decimal, zero-padded to `width` characters, as `strftime` pads `%m`, `%d`, `%H`, `%M`. */
  function PadDigits(n: nat, width: nat): (s: string)
    requires n < Pow10(width)
    ensures |s| == width && AllDigits(s)
  {
    if width == 0 then ""
    else PadDigits(n / 10, width - 1) + [('0' as int + n % 10) as char]
  }

  /** The number a string of decimal digits denotes. */
  function DigitsValue(s: string): nat
    requires AllDigits(s)
  {
    if s == [] then 0
    else 10 * DigitsValue(s[..|s| - 1]) + (s[|s| - 1] as int - '0' as int)
  }

  /** Reading back a padded number gives the number: the padding loses nothing. */
  lemma {:induction false} DigitsRoundTrip(n: nat, width: nat)
    requires n < Pow10(width)
    ensures DigitsValue(PadDigits(n, width)) == n
  {
    if width > 0 {
      var s := PadDigits(n, width);
      assert s[..width - 1] == PadDigits(n / 10, width - 1);
      DigitsRoundTrip(n / 10, width - 1);
    }
  }

  /** `strftime('%Y%m%d-%H%M')` of a clock reading: 13 characters. */
  function Stamp(t: Timestamp): (s: string)
    requires ValidTimestamp(t)
    ensures |s| == 13 && s[8] == '-' && AllDigits(s[..8]) && AllDigits(s[9..])
    ensures s[..4] == PadDigits(t.year, 4) && s[4..6] == PadDigits(t.month, 2)
    ensures s[6..8] == PadDigits(t.day, 2) && s[9..11] == PadDigits(t.hour, 2)
    ensures s[11..] == PadDigits(t.minute, 2)
  {
    PadDigits(t.year, 4) + PadDigits(t.month, 2) + PadDigits(t.day, 2) + "-"
      + PadDigits(t.hour, 2) + PadDigits(t.minute, 2)
  }

  /** The shape every generated reference has: 3 + 8 + 1 + 4 + 1 + 4 = 21 characters. */
  predicate IsReferenceShape(r: string)
  {
    && |r| == 21
    && r[..3] == "FP-" && r[11] == '-' && r[16] == '-'
    && AllDigits(r[3..11]) && AllDigits(r[12..16])
    && forall i :: 17 <= i < 21 ==> r[i] in Alphabet
  }

  /** The candidate reference one attempt builds (app.py:18-19). */
  function Candidate(d: Draw): (r: string)
    requires ValidDraw(d)
    ensures IsReferenceShape(r)
  {
    var s := Stamp(d.now);
    var r := "FP-" + s + "-" + d.code;
    assert r[3..16] == s && r[17..] == d.code;
    assert r[3..11] == s[..8] && r[12..16] == s[9..];
    r
  }

  /** Where each part of the attempt sits in the candidate. */
  lemma CandidateFields(d: Draw)
    requires ValidDraw(d)
    ensures var r := Candidate(d);
      && r[3..7] == PadDigits(d.now.year, 4) && r[7..9] == PadDigits(d.now.month, 2)
      && r[9..11] == PadDigits(d.now.day, 2) && r[12..14] == PadDigits(d.now.hour, 2)
      && r[14..16] == PadDigits(d.now.minute, 2) && r[17..] == d.code
  {
    var s := Stamp(d.now);
    var r := Candidate(d);
    assert r[3..16] == s && r[17..] == d.code;
    assert r[3..7] == s[..4] && r[7..9] == s[4..6] && r[9..11] == s[6..8];
    assert r[12..14] == s[9..11] && r[14..16] == s[11..];
  }

  /**
   * Two attempts give the same reference only when they read the same
   * minute of the clock and drew the same four characters.
   */
  lemma CandidateInjective(d1: Draw, d2: Draw)
    requires ValidDraw(d1) && ValidDraw(d2)
    requires Candidate(d1) == Candidate(d2)
    ensures d1.now.year == d2.now.year && d1.now.month == d2.now.month && d1.now.day == d2.now.day
    ensures d1.now.hour == d2.now.hour && d1.now.minute == d2.now.minute
    ensures d1.code == d2.code
  {
    CandidateFields(d1);
    CandidateFields(d2);
    DigitsRoundTrip(d1.now.year, 4);
    DigitsRoundTrip(d2.now.year, 4);
    DigitsRoundTrip(d1.now.month, 2);
    DigitsRoundTrip(d2.now.month, 2);
    DigitsRoundTrip(d1.now.day, 2);
    DigitsRoundTrip(d2.now.day, 2);
    DigitsRoundTrip(d1.now.hour, 2);
    DigitsRoundTrip(d2.now.hour, 2);
    DigitsRoundTrip(d1.now.minute, 2);
    DigitsRoundTrip(d2.now.minute, 2);
  }

  /**
   * What the retry loop returns when its attempts are `draws`: the first
   * candidate not already stored, or None when every attempt collides (the
   * source would keep drawing).
   */
  function FirstFresh(refs: set<string>, draws: seq<Draw>): (r: Option<string>)
    requires forall k :: 0 <= k < |draws| ==> ValidDraw(draws[k])
    ensures r.Some? ==> r.value !in refs && IsReferenceShape(r.value)
    ensures r.None? <==> forall k :: 0 <= k < |draws| ==> Candidate(draws[k]) in refs
  {
    if draws == [] then None
    else if Candidate(draws[0]) !in refs then Some(Candidate(draws[0]))
    else
      AllCollideSplit(refs, draws);
      FirstFresh(refs, draws[1..])
  }

  /** Every attempt collides exactly when the first does and every later one does. */
  lemma AllCollideSplit(refs: set<string>, draws: seq<Draw>)
    requires |draws| > 0 && forall k :: 0 <= k < |draws| ==> ValidDraw(draws[k])
    ensures (forall k :: 0 <= k < |draws| ==> Candidate(draws[k]) in refs) <==>
            (Candidate(draws[0]) in refs && forall k :: 0 <= k < |draws[1..]| ==> Candidate(draws[1..][k]) in refs)
  {
    if Candidate(draws[0]) in refs && forall k :: 0 <= k < |draws[1..]| ==> Candidate(draws[1..][k]) in refs {
      forall k | 0 <= k < |draws| ensures Candidate(draws[k]) in refs {
        if k > 0 { assert draws[k] == draws[1..][k - 1]; }
      }
    }
  }

  /** How many attempts the retry loop makes before one is fresh (`|draws|` when none is). */
  function Attempts(refs: set<string>, draws: seq<Draw>): (n: nat)
    requires forall k :: 0 <= k < |draws| ==> ValidDraw(draws[k])
    ensures n <= |draws|
  {
    if draws == [] || Candidate(draws[0]) !in refs then 0
    else 1 + Attempts(refs, draws[1..])
  }

  /**
   * The reference returned is the candidate of attempt `Attempts(...)`,
   * and every earlier attempt collided with a stored reference.
   */
  lemma {:induction false} FirstFreshIsEarliestFreshDraw(refs: set<string>, draws: seq<Draw>)
    requires forall k :: 0 <= k < |draws| ==> ValidDraw(draws[k])
    ensures var n := Attempts(refs, draws);
      && (FirstFresh(refs, draws).Some? <==> n < |draws|)
      && (n < |draws| ==> FirstFresh(refs, draws) == Some(Candidate(draws[n])))
      && forall j :: 0 <= j < n ==> Candidate(draws[j]) in refs
  {
    if draws != [] && Candidate(draws[0]) in refs {
      var tail := draws[1..];
      FirstFreshIsEarliestFreshDraw(refs, tail);
      var n := Attempts(refs, tail);
      assert n < |tail| ==> tail[n] == draws[n + 1];
      forall j | 0 <= j < n + 1 ensures Candidate(draws[j]) in refs {
        if j > 0 {
          assert draws[j] == tail[j - 1];
          assert Candidate(tail[j - 1]) in refs;
        }
      }
    }
  }
}
