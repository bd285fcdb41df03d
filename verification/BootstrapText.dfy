/**
 The text both sides exchange before the queue pairs are connected: the announced size, printed with
 %llu, and the bootstrap record, printed and scanned with %016Lx:%u:%x:%x:%x (sections 7.21.6.1 and
 7.21.6.2 of ISO C11).  Scanning reads the longest run of digits the field width allows; white space,
 signs and 0x prefixes, which the printer never produces, are not modelled.
 */
module BootstrapText {
  import opened Transfers

  datatype Bootstrap = Bootstrap(vaddr: nat, rkey: nat, qpn: nat, psn: nat, lid: nat)

  /** The fields fit their C types; int fields are printed and scanned as 32-bit unsigned values. */
  predicate Fits(b: Bootstrap) {
    b.vaddr < U64 && b.rkey < U32 && b.qpn < U32 && b.psn < U32 && b.lid < U32
  }

  // ---------------------------------------------------------------- digits

  function DigitChar(d: nat): (c: char)
    requires d < 16
    ensures DigitOf(c) == d
  {
    if d < 10 then '0' + d as char else 'a' + (d - 10) as char
  }

  /** The value of a digit; 16 for a character that is none. */
  function DigitOf(c: char): nat {
    if '0' <= c <= '9' then (c - '0') as nat
    else if 'a' <= c <= 'f' then (c - 'a') as nat + 10
    else if 'A' <= c <= 'F' then (c - 'A') as nat + 10
    else 16
  }

  function Print(base: nat, n: nat): (s: seq<char>)
    requires 2 <= base <= 16
    ensures s != []
  {
    if n < base then [DigitChar(n)] else Print(base, n / base) + [DigitChar(n % base)]
  }

  function Padded(width: nat, s: seq<char>): seq<char> {
    if |s| < width then seq(width - |s|, _ => '0') + s else s
  }

  /** Reads digits while there are any and the width allows. */
  function Scan(base: nat, width: nat, s: seq<char>, acc: nat): (nat, seq<char>)
    decreases |s|
  {
    if width == 0 || s == [] || DigitOf(s[0]) >= base then (acc, s)
    else Scan(base, width - 1, s[1..], acc * base + DigitOf(s[0]))
  }

  /** One numeric conversion: at least one digit, or the scan stops. */
  function Number(base: nat, width: nat, s: seq<char>): Option<(nat, seq<char>)> {
    if width == 0 || s == [] || DigitOf(s[0]) >= base then None else Some(Scan(base, width, s, 0))
  }

  predicate AllDigits(base: nat, ds: seq<char>) {
    forall i :: 0 <= i < |ds| ==> DigitOf(ds[i]) < base
  }

  function Value(base: nat, ds: seq<char>, acc: nat): nat {
    if ds == [] then acc else Value(base, ds[1..], acc * base + DigitOf(ds[0]))
  }

  lemma {:induction false} ValueSnoc(base: nat, ds: seq<char>, c: char, acc: nat)
    ensures Value(base, ds + [c], acc) == Value(base, ds, acc) * base + DigitOf(c)
    decreases |ds|
  {
    if ds == [] {
      assert ds + [c] == [c] && [c][1..] == [];
    } else {
      assert (ds + [c])[0] == ds[0] && (ds + [c])[1..] == ds[1..] + [c];
      ValueSnoc(base, ds[1..], c, acc * base + DigitOf(ds[0]));
    }
  }

  lemma QuotientAndRest(n: nat, base: nat)
    requires base > 0
    ensures n / base * base + n % base == n
  {
  }

  /** What is printed has the printed value. */
  lemma {:induction false} PrintValue(base: nat, n: nat)
    requires 2 <= base <= 16
    ensures AllDigits(base, Print(base, n)) && Value(base, Print(base, n), 0) == n
  {
    if n < base {
      assert Print(base, n)[1..] == [];
    } else {
      PrintValue(base, n / base);
      ValueSnoc(base, Print(base, n / base), DigitChar(n % base), 0);
      QuotientAndRest(n, base);
    }
  }

  lemma {:induction false} ZerosValue(base: nat, k: nat, ds: seq<char>)
    ensures Value(base, seq(k, _ => '0') + ds, 0) == Value(base, ds, 0)
  {
    if k == 0 {
      assert seq(k, _ => '0') + ds == ds;
    } else {
      var zs := seq(k, _ => '0');
      assert (zs + ds)[0] == '0' && (zs + ds)[1..] == seq(k - 1, _ => '0') + ds;
      ZerosValue(base, k - 1, ds);
    }
  }

  /** A run of digits that the width covers, followed by something that ends it, is read whole. */
  lemma {:induction false} ScanRun(base: nat, width: nat, ds: seq<char>, rest: seq<char>, acc: nat)
    requires AllDigits(base, ds) && |ds| <= width
    requires |ds| == width || rest == [] || DigitOf(rest[0]) >= base
    ensures Scan(base, width, ds + rest, acc) == (Value(base, ds, acc), rest)
    decreases |ds|
  {
    if ds == [] {
      assert ds + rest == rest;
    } else {
      assert (ds + rest)[0] == ds[0] && (ds + rest)[1..] == ds[1..] + rest;
      ScanRun(base, width - 1, ds[1..], rest, acc * base + DigitOf(ds[0]));
    }
  }

  /** Printing a number and scanning it back, with whatever non-digit follows. */
  lemma NumberRoundTrip(base: nat, width: nat, n: nat, rest: seq<char>)
    requires 2 <= base <= 16 && |Print(base, n)| <= width
    requires |Print(base, n)| == width || rest == [] || DigitOf(rest[0]) >= base
    ensures Number(base, width, Print(base, n) + rest) == Some((n, rest))
  {
    PrintValue(base, n);
    ScanRun(base, width, Print(base, n), rest, 0);
    assert (Print(base, n) + rest)[0] == Print(base, n)[0];
  }

  // ---------------------------------------------------------------- the 16-digit address

  function Pow16(k: nat): nat {
    if k == 0 then 1 else 16 * Pow16(k - 1)
  }

  lemma {:induction false} PrintLength(n: nat, k: nat)
    requires k >= 1 && n < Pow16(k)
    ensures |Print(16, n)| <= k
  {
    if n >= 16 {
      assert k >= 2;
      PrintLength(n / 16, k - 1);
    }
  }

  lemma Pow16Is64Bits()
    ensures Pow16(16) == U64
  {
    assert Pow16(4) == 0x1_0000;
    assert Pow16(8) == 0x1_0000_0000;
    assert Pow16(12) == 0x1_0000_0000_0000;
  }

  lemma AddressRoundTrip(n: nat, rest: seq<char>)
    requires n < U64
    ensures |Padded(16, Print(16, n))| == 16
    ensures Number(16, 16, Padded(16, Print(16, n)) + rest) == Some((n, rest))
  {
    Pow16Is64Bits();
    PrintLength(n, 16);
    PrintValue(16, n);
    var ds := Padded(16, Print(16, n));
    ZerosValue(16, 16 - |Print(16, n)|, Print(16, n));
    assert |Print(16, n)| == 16 ==> ds == Print(16, n);
    assert AllDigits(16, ds);
    ScanRun(16, 16, ds, rest, 0);
    assert (ds + rest)[0] == ds[0];
  }

  // ---------------------------------------------------------------- the records

  /** A record's text with its last field given. */
  function Text(b: Bootstrap, last: seq<char>): seq<char> {
    Padded(16, Print(16, b.vaddr)) + ([':'] + (Print(10, b.rkey) + ([':'] + (Print(16, b.qpn) + ([':'] +
    (Print(16, b.psn) + ([':'] + last)))))))
  }

  function PrintBootstrap(b: Bootstrap): seq<char> {
    Text(b, Print(16, b.lid))
  }

  /** A numeric conversion and the colon after it. */
  function Field(base: nat, width: nat, s: seq<char>): Option<(nat, seq<char>)> {
    match Number(base, width, s)
    case None => None
    case Some((n, rest)) => if rest != [] && rest[0] == ':' then Some((n, rest[1..])) else None
  }

  /** sscanf with the same format; conversions without a width may read to the end of the text. */
  function ScanBootstrap(s: seq<char>): Option<Bootstrap> {
    match Field(16, 16, s) case None => None case Some((vaddr, s1)) =>
    match Field(10, |s1|, s1) case None => None case Some((rkey, s2)) =>
    match Field(16, |s2|, s2) case None => None case Some((qpn, s3)) =>
    match Field(16, |s3|, s3) case None => None case Some((psn, s4)) =>
    match Number(16, |s4|, s4) case None => None case Some((lid, _)) =>
    Some(Bootstrap(vaddr % U64, rkey % U32, qpn % U32, psn % U32, lid % U32))
  }

  /** The buffer behind the text ends the last number: a NUL does, a leftover hex digit does not. */
  predicate Ends(tail: seq<char>) {
    tail == [] || DigitOf(tail[0]) >= 16
  }

  lemma FieldRoundTrip(base: nat, n: nat, rest: seq<char>)
    requires 2 <= base <= 16
    ensures var s := Print(base, n) + ([':'] + rest); Field(base, |s|, s) == Some((n, rest))
  {
    NumberRoundTrip(base, |Print(base, n) + ([':'] + rest)|, n, [':'] + rest);
    assert ([':'] + rest)[1..] == rest;
  }

  lemma ScanInParts(b: Bootstrap, s: seq<char>, s1: seq<char>, s2: seq<char>, s3: seq<char>, s4: seq<char>,
                    lid: nat, tail: seq<char>)
    requires Fits(b)
    requires Field(16, 16, s) == Some((b.vaddr, s1)) && Field(10, |s1|, s1) == Some((b.rkey, s2))
    requires Field(16, |s2|, s2) == Some((b.qpn, s3)) && Field(16, |s3|, s3) == Some((b.psn, s4))
    requires Number(16, |s4|, s4) == Some((lid, tail))
    ensures ScanBootstrap(s) == Some(b.(lid := lid % U32))
  {
  }

  lemma Regroup(a: seq<char>, x: seq<char>, tail: seq<char>)
    ensures (a + ([':'] + x)) + tail == a + ([':'] + (x + tail))
  {
  }

  lemma AppendTail(b: Bootstrap, tail: seq<char>)
    ensures PrintBootstrap(b) + tail == Text(b, Print(16, b.lid) + tail)
  {
    var x4 := Print(16, b.lid);
    var x3 := Print(16, b.psn) + ([':'] + x4);
    var x2 := Print(16, b.qpn) + ([':'] + x3);
    var x1 := Print(10, b.rkey) + ([':'] + x2);
    Regroup(Print(16, b.psn), x4, tail);
    Regroup(Print(16, b.qpn), x3, tail);
    Regroup(Print(10, b.rkey), x2, tail);
    Regroup(Padded(16, Print(16, b.vaddr)), x1, tail);
  }

  /** The announced size survives too. */
  lemma SizeRoundTrip(size: nat, tail: seq<char>)
    requires size < U64 && (tail == [] || DigitOf(tail[0]) >= 10)
    ensures var s := Print(10, size) + tail; Number(10, |s|, s) == Some((size, tail))
  {
    NumberRoundTrip(10, |Print(10, size) + tail|, size, tail);
  }

  // ---------------------------------------------------------------- what lies behind the text

  /** How many hex digits a text starts with. */
  function Leading(tail: seq<char>): (k: nat)
    ensures k <= |tail| && AllDigits(16, tail[..k]) && Ends(tail[k..])
  {
    if Ends(tail) then 0 else Leading(tail[1..]) + 1
  }

  lemma {:induction false} ValueConcat(base: nat, a: seq<char>, b: seq<char>, acc: nat)
    ensures Value(base, a + b, acc) == Value(base, b, Value(base, a, acc))
    decreases |a|
  {
    if a == [] {
      assert a + b == b;
    } else {
      assert (a + b)[0] == a[0] && (a + b)[1..] == a[1..] + b;
      ValueConcat(base, a[1..], b, acc * base + DigitOf(a[0]));
    }
  }

  lemma {:induction false} ValueShifted(ds: seq<char>, acc: nat)
    ensures Value(16, ds, acc) == acc * Pow16(|ds|) + Value(16, ds, 0)
    decreases |ds|
  {
    if ds != [] {
      ValueShifted(ds[1..], acc * 16 + DigitOf(ds[0]));
      ValueShifted(ds[1..], DigitOf(ds[0]));
      var p := Pow16(|ds| - 1);
      assert (acc * 16 + DigitOf(ds[0])) * p == acc * (16 * p) + DigitOf(ds[0]) * p;
    }
  }

  lemma {:induction false} ZeroValueIff(ds: seq<char>)
    ensures Value(16, ds, 0) == 0 <==> forall i :: 0 <= i < |ds| ==> DigitOf(ds[i]) == 0
    decreases |ds|
  {
    if ds != [] {
      ValueShifted(ds[1..], DigitOf(ds[0]));
      ZeroValueIff(ds[1..]);
      Pow16Positive(|ds| - 1);
      if DigitOf(ds[0]) == 0 {
        assert forall i :: 0 < i < |ds| ==> ds[i] == ds[1..][i - 1];
      } else {
        assert DigitOf(ds[0]) * Pow16(|ds| - 1) > 0;
      }
    }
  }

  lemma {:induction false} Pow16Positive(k: nat)
    ensures Pow16(k) >= 1 && (k >= 1 ==> Pow16(k) >= 16)
  {
    if k > 0 {
      Pow16Positive(k - 1);
    }
  }

  /** The last field as it is scanned when `tail` lies behind the text: leftover hex digits are read on. */
  function Absorbed(lid: nat, tail: seq<char>): nat {
    Read(lid, tail) % U32
  }

  /** The number that n followed by `tail` is read as. */
  function Read(n: nat, tail: seq<char>): nat {
    n * Pow16(Leading(tail)) + Value(16, tail[..Leading(tail)], 0)
  }

  lemma AddressField(n: nat, rest: seq<char>)
    requires n < U64
    ensures Field(16, 16, Padded(16, Print(16, n)) + ([':'] + rest)) == Some((n, rest))
  {
    AddressRoundTrip(n, [':'] + rest);
    assert ([':'] + rest)[1..] == rest;
  }

  /** The first four fields are read back whatever the last conversion finds. */
  lemma {:induction false} ScanFields(b: Bootstrap, s4: seq<char>, lid: nat, rest: seq<char>)
    requires Fits(b) && Number(16, |s4|, s4) == Some((lid, rest))
    ensures ScanBootstrap(Text(b, s4)) == Some(b.(lid := lid % U32))
  {
    var s3 := Print(16, b.psn) + ([':'] + s4);
    var s2 := Print(16, b.qpn) + ([':'] + s3);
    var s1 := Print(10, b.rkey) + ([':'] + s2);
    AddressField(b.vaddr, s1);
    FieldRoundTrip(10, b.rkey, s2);
    FieldRoundTrip(16, b.qpn, s3);
    FieldRoundTrip(16, b.psn, s4);
    ScanInParts(b, Padded(16, Print(16, b.vaddr)) + ([':'] + s1), s1, s2, s3, s4, lid, rest);
  }

  /** What the scan yields for every content of the buffer behind the text: the first four fields are
      right, the last has absorbed the leftover digits. */
  lemma {:induction false} ScanWithLeftovers(b: Bootstrap, tail: seq<char>)
    requires Fits(b)
    ensures ScanBootstrap(PrintBootstrap(b) + tail) == Some(b.(lid := Absorbed(b.lid, tail)))
  {
    LeftoverNumber(b.lid, tail);
    AppendTail(b, tail);
    ScanFields(b, Print(16, b.lid) + tail, Read(b.lid, tail), tail[Leading(tail)..]);
  }

  lemma {:induction false} LeftoverNumber(n: nat, tail: seq<char>)
    ensures var s := Print(16, n) + tail; Number(16, |s|, s) == Some((Read(n, tail), tail[Leading(tail)..]))
  {
    var ds, rest := tail[..Leading(tail)], tail[Leading(tail)..];
    LastNumber(n, ds, rest);
    assert Print(16, n) + tail == (Print(16, n) + ds) + rest;
  }

  lemma LastNumber(n: nat, ds: seq<char>, rest: seq<char>)
    requires AllDigits(16, ds) && Ends(rest)
    ensures var s := (Print(16, n) + ds) + rest; Number(16, |s|, s) == Some((n * Pow16(|ds|) + Value(16, ds, 0), rest))
  {
    PrintValue(16, n);
    ValueConcat(16, Print(16, n), ds, 0);
    ValueShifted(ds, n);
    var s := (Print(16, n) + ds) + rest;
    ScanRun(16, |s|, Print(16, n) + ds, rest, 0);
    assert s[0] == Print(16, n)[0];
  }

  lemma {:induction false} AbsorbedNothing(lid: nat, tail: seq<char>)
    requires lid < U32 && Ends(tail)
    ensures Absorbed(lid, tail) == lid
  {
    assert tail[..0] == [];
  }

  lemma {:induction false} AbsorbedIff(lid: nat, tail: seq<char>)
    requires Read(lid, tail) < U32
    ensures Absorbed(lid, tail) == lid <==>
            Ends(tail) || (lid == 0 && forall i :: 0 <= i < Leading(tail) ==> DigitOf(tail[i]) == 0)
  {
    var k := Leading(tail);
    var ds := tail[..k];
    ZeroValueIff(ds);
    assert forall i :: 0 <= i < k ==> ds[i] == tail[i];
    if k > 0 && lid > 0 {
      Pow16Positive(k);
      assert lid * Pow16(k) >= lid * 16;
    }
  }

  /** Every record survives printing and scanning, in either direction, when the text is ended. */
  lemma {:induction false} BootstrapRoundTrip(b: Bootstrap, tail: seq<char>)
    requires Fits(b) && Ends(tail)
    ensures ScanBootstrap(PrintBootstrap(b) + tail) == Some(b)
  {
    ScanWithLeftovers(b, tail);
    AbsorbedNothing(b.lid, tail);
  }

  /** Exactly when it survives: unless the leftover digits overflow the last field, if and only if there
      are none, or they are zeros behind a zero. */
  lemma {:induction false} BootstrapRoundTripIff(b: Bootstrap, tail: seq<char>)
    requires Fits(b) && Read(b.lid, tail) < U32
    ensures ScanBootstrap(PrintBootstrap(b) + tail) == Some(b) <==>
            Ends(tail) || (b.lid == 0 && forall i :: 0 <= i < Leading(tail) ==> DigitOf(tail[i]) == 0)
  {
    ScanWithLeftovers(b, tail);
    AbsorbedIff(b.lid, tail);
  }

  /** A record whose last field does not survive: lid 1 with a leftover 0 is read as 16. */
  lemma {:induction false} LeftoverDigitCorrupts()
    ensures ScanBootstrap(PrintBootstrap(Bootstrap(0, 0, 0, 0, 1)) + ['0']) == Some(Bootstrap(0, 0, 0, 0, 16))
  {
    ScanWithLeftovers(Bootstrap(0, 0, 0, 0, 1), ['0']);
    assert ['0'][1..] == [];
    assert Leading([]) == 0;
    assert Leading(['0']) == 1 && ['0'][..1] == ['0'];
    assert Pow16(1) == 16;
  }

  lemma {:induction false} PrintedNumbers()
    ensures Print(16, 0xabc0) == "abc0" && Print(16, 0xf) == "f" && Print(16, 0x10) == "10" && Print(16, 7) == "7"
    ensures Print(10, 19) == "19" && Print(10, 4096) == "4096"
  {
    assert Print(16, 0xa) == "a" && Print(16, 0xab) == "ab" && Print(16, 0xabc) == "abc";
    assert Print(16, 1) == "1" && Print(10, 1) == "1";
    assert Print(10, 4) == "4" && Print(10, 40) == "40" && Print(10, 409) == "409";
  }

  /** The formats themselves: sixteen zero-padded hex digits, a decimal number and three hex numbers, all
      in lower case and separated by colons; the size is decimal. */
  lemma {:induction false} PrintedFormats()
    ensures PrintBootstrap(Bootstrap(0xabc0, 19, 0xf, 0x10, 7)) == "000000000000abc0:19:f:10:7"
    ensures Print(10, 4096) == "4096"
  {
    PrintedNumbers();
    assert Padded(16, "abc0") == "000000000000abc0";
    assert "10" + ([':'] + "7") == "10:7";
    assert "f" + ([':'] + "10:7") == "f:10:7";
    assert "19" + ([':'] + "f:10:7") == "19:f:10:7";
  }
}
