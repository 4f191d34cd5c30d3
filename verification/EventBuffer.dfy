/** `EventBuffer` in `src/tracing_fmt.rs`: one log event, gathered by writes and truncated when dropped. */
module EventBuffer {
  import opened Utf8

  const NEWLINE: bv8 := 0x0A
  const DIGITS: Bytes := [0x30, 0x31, 0x32, 0x33, 0x34, 0x35, 0x36, 0x37, 0x38, 0x39]
  const BEFORE_TOTAL: Bytes := [0x2E, 0x2E, 0x2E, 0x5B]
  const AFTER_TOTAL: Bytes := [0x42, 0x20, 0x74, 0x6F, 0x74, 0x61, 0x6C, 0x5D, 0x0A]

  function Decimal(n: nat): Bytes {
    if n < 10 then [DIGITS[n]] else Decimal(n / 10) + [DIGITS[n % 10]]
  }

  /** `...[nB total]` and a newline. */
  function Suffix(total: nat): Bytes {
    BEFORE_TOTAL + Decimal(total) + AFTER_TOTAL
  }

  function Trimmed(s: Bytes): Bytes {
    if s != [] && s[|s| - 1] == NEWLINE then s[..|s| - 1] else s
  }

  /** What is kept of an event that is too long. */
  function Kept(buf: Bytes, limit: nat): Bytes
    requires |buf| > limit
  {
    Trimmed(buf[..Floor(buf, limit)])
  }

  /** What an event leaves on standard error. */
  function Emitted(buf: Bytes, limit: nat): Bytes {
    if |buf| <= limit then buf else Kept(buf, limit) + Suffix(|buf|)
  }

  class Stderr {
    var text: Bytes
  }

  class EventBuffer {
    var buf: Bytes
    const limit: nat
    const stderr: Stderr

    constructor (limit: nat, stderr: Stderr)
      ensures buf == [] && this.limit == limit && this.stderr == stderr
    {
      buf, this.limit, this.stderr := [], limit, stderr;
    }

    method Write(data: Bytes) returns (n: nat)
      modifies this`buf
      ensures buf == old(buf) + data && n == |data|
    {
      buf := buf + data;
      n := |data|;
    }

    /** The destructor. */
    method Drop()
      modifies stderr
      ensures stderr.text == old(stderr.text) + Emitted(buf, limit)
    {
      if buf == [] {
        assert stderr.text + [] == stderr.text;
        return;
      }
      if |buf| <= limit {
        stderr.text := stderr.text + buf;
        return;
      }
      var cut := Utf8Floor(buf, limit);
      var trimmed := buf[..cut];
      if cut > 0 && trimmed[cut - 1] == NEWLINE {
        trimmed := trimmed[..cut - 1];
      }
      stderr.text := stderr.text + (trimmed + Suffix(|buf|));
    }
  }

  // ----- What is left is UTF-8 and short -----

  lemma {:induction false} DecimalAscii(n: nat)
    ensures forall k :: 0 <= k < |Decimal(n)| ==> 0x30 <= Decimal(n)[k] <= 0x39
  {
    if n >= 10 {
      DecimalAscii(n / 10);
    }
  }

  /** The kept text ends at a character boundary, at most four bytes before the limit: three for the character, one for a newline. */
  lemma KeptAtBoundary(buf: Bytes, limit: nat)
    requires Valid(buf) && |buf| > limit
    ensures var k := |Kept(buf, limit)|;
            && k <= limit <= k + 4
            && Kept(buf, limit) == buf[..k]
            && Boundary(buf, k)
  {
    var cut := Floor(buf, limit);
    FloorIsLargest(buf, limit, cut);
    var k := |Kept(buf, limit)|;
    if k < cut {
      assert buf[k] == NEWLINE && !Tail(NEWLINE);
      BoundaryPlaces(buf, 0, k);
    }
  }

  /** An event in UTF-8 leaves UTF-8: itself if it fits, else a prefix of whole characters and the suffix. */
  lemma EmittedValid(buf: Bytes, limit: nat)
    requires Valid(buf)
    ensures Valid(Emitted(buf, limit))
    ensures |buf| > limit ==> |Emitted(buf, limit)| <= limit + |Suffix(|buf|)|
  {
    if |buf| > limit {
      KeptAtBoundary(buf, limit);
      ValidSplit(buf, |Kept(buf, limit)|);
      DecimalAscii(|buf|);
      AsciiValid(Suffix(|buf|), 0);
      ValidJoin(Kept(buf, limit), Suffix(|buf|));
    }
  }

  /** Standard error after the events of a process, one after the other. */
  function EmittedAll(events: seq<Bytes>, limit: nat): Bytes {
    if events == [] then [] else EmittedAll(events[..|events| - 1], limit) + Emitted(events[|events| - 1], limit)
  }

  lemma {:induction false} SessionValid(events: seq<Bytes>, limit: nat)
    requires forall e :: e in events ==> Valid(e)
    ensures Valid(EmittedAll(events, limit))
  {
    if events != [] {
      SessionValid(events[..|events| - 1], limit);
      EmittedValid(events[|events| - 1], limit);
      ValidJoin(EmittedAll(events[..|events| - 1], limit), Emitted(events[|events| - 1], limit));
    }
  }

  // ----- The total can be read back -----

  function DigitValue(b: bv8): nat {
    if b == 0x30 then 0 else if b == 0x31 then 1 else if b == 0x32 then 2 else if b == 0x33 then 3
    else if b == 0x34 then 4 else if b == 0x35 then 5 else if b == 0x36 then 6 else if b == 0x37 then 7
    else if b == 0x38 then 8 else 9
  }

  function ReadDecimal(ds: Bytes): nat {
    if ds == [] then 0 else 10 * ReadDecimal(ds[..|ds| - 1]) + DigitValue(ds[|ds| - 1])
  }

  lemma DigitReadsBack(ds: Bytes, d: nat)
    requires d < 10
    ensures ReadDecimal(ds + [DIGITS[d]]) == 10 * ReadDecimal(ds) + d
  {
    assert (ds + [DIGITS[d]])[..|ds|] == ds;
  }

  lemma {:induction false} DecimalReadsBack(n: nat)
    ensures ReadDecimal(Decimal(n)) == n
  {
    assert ReadDecimal([]) == 0;
    hide ReadDecimal, DigitValue;
    if n < 10 {
      DigitReadsBack([], n);
      assert [] + [DIGITS[n]] == [DIGITS[n]];
    } else {
      DecimalReadsBack(n / 10);
      DigitReadsBack(Decimal(n / 10), n % 10);
    }
  }

  /** The suffix of a truncated event tells how long the event was. */
  lemma TotalReadsBack(buf: Bytes, limit: nat)
    requires |buf| > limit
    ensures var out, from := Emitted(buf, limit), |Kept(buf, limit)| + |BEFORE_TOTAL|;
            && from + |AFTER_TOTAL| <= |out|
            && ReadDecimal(out[from..|out| - |AFTER_TOTAL|]) == |buf|
            && out[|out| - 1] == NEWLINE
  {
    hide Decimal, ReadDecimal, Kept;
    DecimalReadsBack(|buf|);
    Between(Kept(buf, limit), BEFORE_TOTAL, Decimal(|buf|), AFTER_TOTAL);
  }

  lemma Between(a: Bytes, b: Bytes, c: Bytes, d: Bytes)
    ensures var s := a + (b + c + d); s[|a| + |b|..|s| - |d|] == c && (d != [] ==> s[|s| - 1] == d[|d| - 1])
  {
  }

  /** The cap holds for what is kept, not for what is written: with its suffix a truncated event always exceeds it. */
  lemma TruncatedExceedsLimit(buf: Bytes, limit: nat)
    requires Valid(buf)
    ensures |Emitted(buf, limit)| > limit <==> |buf| > limit
  {
    if |buf| > limit {
      KeptAtBoundary(buf, limit);
    }
  }

  /**
   What is kept, on the bytes: the characters that fit below the limit, less one final newline.
   Here `cut` is the last boundary that fits.
   */
  lemma KeptIs(buf: Bytes, limit: nat, cut: nat)
    requires Valid(buf) && |buf| > limit
    requires cut <= limit && Boundary(buf, cut) && forall k :: cut < k <= limit ==> !Boundary(buf, k)
    ensures cut > 0 && buf[cut - 1] == 0x0A ==> Kept(buf, limit) == buf[..cut - 1]
    ensures cut == 0 || buf[cut - 1] != 0x0A ==> Kept(buf, limit) == buf[..cut]
  {
    FloorIsLargest(buf, limit, Floor(buf, limit));
  }
}
