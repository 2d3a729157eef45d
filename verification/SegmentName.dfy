/** Segment file names: `segment-<20 digits>.ndjson` and back. */
module SegmentName {
  import opened Ingest
  import opened Text

  const PREFIX := "segment-"
  const SUFFIX := ".ndjson"
  const WIDTH: nat := 20
  const UINT64: nat := 0x1_0000_0000_0000_0000

  predicate IsDigit(c: char) {
    '0' <= c <= '9'
  }

  function DigitOf(d: nat): char
    requires d < 10
  {
    "0123456789"[d]
  }

  function ValueOf(c: char): nat
    requires IsDigit(c)
  {
    (c as int) - ('0' as int)
  }

  /** The last `width` decimal digits, zero padded. */
  function Padded(n: nat, width: nat): string {
    if width == 0 then "" else Padded(n / 10, width - 1) + [DigitOf(n % 10)]
  }

  function Pow10(w: nat): nat {
    if w == 0 then 1 else 10 * Pow10(w - 1)
  }

  predicate AllDigits(s: string) {
    forall i :: 0 <= i < |s| ==> IsDigit(s[i])
  }

  function Decimal(s: string): nat
    requires AllDigits(s)
  {
    if s == "" then 0 else 10 * Decimal(s[..|s| - 1]) + ValueOf(s[|s| - 1])
  }

  /** `%020d`: 20 digits hold every 64-bit number. */
  function SegmentFileName(start: nat): string
    requires start < UINT64
  {
    PREFIX + Padded(start, WIDTH) + SUFFIX
  }

  function StripSlashes(s: string): string {
    if s != "" && s[|s| - 1] == '/' then StripSlashes(s[..|s| - 1]) else s
  }

  function LastElement(s: string): string {
    if s == "" || s[|s| - 1] == '/' then "" else LastElement(s[..|s| - 1]) + [s[|s| - 1]]
  }

  /** The last element of a path. */
  function Base(path: string): string {
    if path == "" then "."
    else if StripSlashes(path) == "" then "/"
    else LastElement(StripSlashes(path))
  }

  function ParseUint(s: string): Option<nat> {
    if s != "" && AllDigits(s) && Decimal(s) < UINT64 then Some(Decimal(s)) else None
  }

  function ParseSegmentStartSeq(name: string): Option<nat> {
    var base := Base(TrimSpace(name));
    if |base| < |PREFIX| + |SUFFIX| || base[..|PREFIX|] != PREFIX || base[|base| - |SUFFIX|..] != SUFFIX then None
    else ParseUint(base[|PREFIX|..|base| - |SUFFIX|])
  }

  lemma {:induction false} PaddedRoundTrip(n: nat, width: nat)
    requires n < Pow10(width)
    ensures |Padded(n, width)| == width && AllDigits(Padded(n, width)) && Decimal(Padded(n, width)) == n
  {
    if width > 0 {
      PaddedRoundTrip(n / 10, width - 1);
      var front := Padded(n / 10, width - 1);
      assert Padded(n, width)[..width - 1] == front;
      assert ValueOf(DigitOf(n % 10)) == n % 10;
    }
  }

  lemma {:induction false} NoSlashIsElement(s: string)
    requires forall i :: 0 <= i < |s| ==> s[i] != '/'
    ensures LastElement(s) == s
  {
    if s != "" {
      NoSlashIsElement(s[..|s| - 1]);
    }
  }

  /** A name spelled with the given digits. */
  function Spelled(digits: string): string {
    PREFIX + digits + SUFFIX
  }

  lemma SpelledIsPlain(digits: string)
    requires AllDigits(digits)
    ensures Base(TrimSpace(Spelled(digits))) == Spelled(digits)
  {
    var name := Spelled(digits);
    assert name[0] == 's' && name[|name| - 1] == 'n';
    assert TrimSpace(name) == name;
    forall i | 0 <= i < |name| ensures name[i] != '/' {
      if |PREFIX| <= i < |PREFIX| + |digits| {
        assert name[i] == digits[i - |PREFIX|];
      }
    }
    NoSlashIsElement(name);
  }

  /** Parsing reads the digits of a well-spelled name as a 64-bit number, however
      many there are. */
  lemma ParseSpelled(digits: string)
    requires digits != "" && AllDigits(digits)
    ensures ParseSegmentStartSeq(Spelled(digits)) == if Decimal(digits) < UINT64 then Some(Decimal(digits)) else None
  {
    SpelledIsPlain(digits);
    var name := Spelled(digits);
    assert name[..|PREFIX|] == PREFIX;
    assert name[|name| - |SUFFIX|..] == SUFFIX;
    assert name[|PREFIX|..|name| - |SUFFIX|] == digits;
  }

  lemma {:induction false} DecimalRoundTrip(digits: string)
    requires AllDigits(digits)
    ensures Padded(Decimal(digits), |digits|) == digits
  {
    if digits != "" {
      var n := |digits| - 1;
      DecimalRoundTrip(digits[..n]);
      var d := ValueOf(digits[n]);
      assert Decimal(digits) / 10 == Decimal(digits[..n]) && Decimal(digits) % 10 == d;
      assert DigitOf(d) == digits[n];
    }
  }

  lemma EnoughDigits()
    ensures UINT64 <= Pow10(WIDTH)
  {
    assert Pow10(4) == 10000 by { assert Pow10(2) == 100; }
    assert Pow10(8) == 100000000 by { assert Pow10(6) == 1000000; }
    assert Pow10(12) == 1000000000000 by { assert Pow10(10) == 10000000000; }
    assert Pow10(16) == 10000000000000000 by { assert Pow10(14) == 100000000000000; }
    assert Pow10(18) == 1000000000000000000;
    assert Pow10(20) == 100000000000000000000;
  }

  /** Every segment name decodes back to the sequence number it was made from, so
      distinct segments have distinct names. */
  lemma NameRoundTrip(start: nat)
    requires start < 0x1_0000_0000_0000_0000
    ensures ParseSegmentStartSeq(SegmentFileName(start)) == Some(start)
  {
    EnoughDigits();
    PaddedRoundTrip(start, WIDTH);
    ParseSpelled(Padded(start, WIDTH));
  }

  /** A segment's name is "segment-", 20 digits with the value of its number, and
      ".ndjson". */
  lemma NameIsSpelled(start: nat) returns (digits: string)
    requires start < 0x1_0000_0000_0000_0000
    ensures SegmentFileName(start) == "segment-" + digits + ".ndjson"
    ensures |digits| == 20 && AllDigits(digits) && Decimal(digits) == start
  {
    EnoughDigits();
    digits := Padded(start, 20);
    PaddedRoundTrip(start, WIDTH);
  }

  lemma {:induction false} LastElementOf(d: string, name: string)
    requires forall i :: 0 <= i < |name| ==> name[i] != '/'
    ensures LastElement(d + "/" + name) == name
  {
    var path := d + "/" + name;
    if name == "" {
      assert path[|path| - 1] == '/';
    } else {
      var n := |name| - 1;
      LastElementOf(d, name[..n]);
      assert path[..|path| - 1] == d + "/" + name[..n];
      assert path[|path| - 1] == name[n];
    }
  }

  /** Of a path only the last element counts. */
  lemma BaseOfPath(d: string, name: string)
    requires name != "" && forall i :: 0 <= i < |name| ==> name[i] != '/'
    ensures Base(d + "/" + name) == Base(name) == name
  {
    var path := d + "/" + name;
    assert path[|path| - 1] == name[|name| - 1];
    LastElementOf(d, name);
    NoSlashIsElement(name);
  }

  /** Only a well-spelled base name parses. */
  lemma ParsedIsSpelled(name: string) returns (digits: string)
    requires ParseSegmentStartSeq(name).Some?
    ensures AllDigits(digits) && Base(TrimSpace(name)) == Spelled(digits)
    ensures ParseSegmentStartSeq(name) == Some(Decimal(digits)) && Decimal(digits) < UINT64
  {
    var base := Base(TrimSpace(name));
    digits := base[|PREFIX|..|base| - |SUFFIX|];
    assert base == base[..|PREFIX|] + digits + base[|base| - |SUFFIX|..];
  }

  /** The converse of the round trip. Among all names that parse, blanks, paths and
      any number of digits included, the one the program writes for the number it
      reads is exactly the bare name with 20 digits. Any other is listed as a segment
      whose file does not exist. */
  lemma ParsedNameIsCanonicalIff(name: string)
    requires ParseSegmentStartSeq(name).Some?
    ensures ParseSegmentStartSeq(name).value < UINT64
    ensures SegmentFileName(ParseSegmentStartSeq(name).value) == name
      <==> Base(TrimSpace(name)) == name && |name| == |PREFIX| + WIDTH + |SUFFIX|
  {
    var digits := ParsedIsSpelled(name);
    var n := Decimal(digits);
    EnoughDigits();
    PaddedRoundTrip(n, WIDTH);
    DecimalRoundTrip(digits);
    SpelledIsPlain(Padded(n, WIDTH));
    assert |SegmentFileName(n)| == |PREFIX| + WIDTH + |SUFFIX|;
    assert |Spelled(digits)| == |PREFIX| + |digits| + |SUFFIX|;
  }
}
