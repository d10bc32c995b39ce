/** Identifiers of engines and cars: 128-bit UUIDs, written as 32 hexadecimal
    digits, and their textual form. `Parse` is what `uuid.Parse` accepts for
    the two dash-free and dashed forms; `Format` is `uuid.UUID.String`. */
module Uuids {
  import opened Base

  type Nibble = x: int | 0 <= x < 16

  /** A UUID as its 32 hexadecimal digits, most significant first. */
  type Uuid = s: seq<Nibble> | |s| == 32
    witness [0, 0, 0, 0, 0, 0, 0, 0, 0, 0, 0, 0, 0, 0, 0, 0, 0, 0, 0, 0, 0, 0, 0, 0, 0, 0, 0, 0, 0, 0, 0, 0]

  /** `uuid.Nil`, the all-zero UUID. */
  const NilId: Uuid :=
    [0, 0, 0, 0, 0, 0, 0, 0, 0, 0, 0, 0, 0, 0, 0, 0, 0, 0, 0, 0, 0, 0, 0, 0, 0, 0, 0, 0, 0, 0, 0, 0]

  /** The shape `uuid.New` produces: version digit 4 and the RFC 4122 variant bits 10. */
  predicate IsVersion4(u: Uuid) {
    u[12] == 4 && 8 <= u[16] < 12
  }

  function HexValue(c: char): (d: Option<Nibble>)
    ensures d.Some? <==> ('0' <= c <= '9' || 'a' <= c <= 'f' || 'A' <= c <= 'F')
  {
    if '0' <= c <= '9' then Some(c as int - '0' as int)
    else if 'a' <= c <= 'f' then Some(c as int - 'a' as int + 10)
    else if 'A' <= c <= 'F' then Some(c as int - 'A' as int + 10)
    else None
  }

  /** The lower-case digit `String` writes for a nibble. */
  function HexDigit(n: Nibble): (c: char)
    ensures HexValue(c) == Some(n)
    ensures '0' <= c <= '9' || 'a' <= c <= 'f'
  {
    if n < 10 then ('0' as int + n) as char else ('a' as int + n - 10) as char
  }

  /** Decodes a string of hexadecimal digits of either case; None on any other character. */
  function ParseHex(s: string): (r: Option<seq<Nibble>>)
    ensures r.Some? ==> |r.value| == |s|
    ensures r.Some? <==> forall i :: 0 <= i < |s| ==> HexValue(s[i]).Some?
    ensures r.Some? ==> forall i :: 0 <= i < |s| ==> Some(r.value[i]) == HexValue(s[i])
  {
    if s == [] then Some([])
    else match (HexValue(s[0]), ParseHex(s[1..]))
      case (Some(d), Some(ds)) => Some([d] + ds)
      case _ => None
  }

  function FormatHex(ds: seq<Nibble>): (s: string)
    ensures |s| == |ds|
  {
    seq(|ds|, i requires 0 <= i < |ds| => HexDigit(ds[i]))
  }

  lemma {:induction false} ParseFormatHex(ds: seq<Nibble>)
    ensures ParseHex(FormatHex(ds)) == Some(ds)
  {
    if ds != [] {
      var s := FormatHex(ds);
      ParseFormatHex(ds[1..]);
      assert s[1..] == FormatHex(ds[1..]);
      assert HexValue(s[0]) == Some(ds[0]);
      assert [ds[0]] + ds[1..] == ds;
    }
  }

  predicate IsHex(c: char) { HexValue(c).Some? }

  /** The four places of the canonical form that hold a dash. */
  predicate IsDashPosition(k: int) { k == 8 || k == 13 || k == 18 || k == 23 }

  /** Where the canonical form xxxxxxxx-xxxx-xxxx-xxxx-xxxxxxxxxxxx puts its
      `j`-th digit. */
  function DigitPosition(j: int): (k: int)
    requires 0 <= j < 32
    ensures 0 <= k < 36 && !IsDashPosition(k)
  {
    if j < 8 then j else if j < 12 then j + 1 else if j < 16 then j + 2
    else if j < 20 then j + 3 else j + 4
  }

  /** Which digit sits at a non-dash place `k` of the canonical form. */
  function DigitIndex(k: int): (j: int)
    requires 0 <= k < 36 && !IsDashPosition(k)
    ensures 0 <= j < 32 && DigitPosition(j) == k
  {
    if k < 8 then k else if k < 13 then k - 1 else if k < 18 then k - 2
    else if k < 23 then k - 3 else k - 4
  }

  /** 32 digits laid out in the canonical 8-4-4-4-12 groups. */
  function Dashed(h: string): (s: string)
    requires |h| == 32
    ensures |s| == 36
  {
    seq(36, k requires 0 <= k < 36 => if IsDashPosition(k) then '-' else h[DigitIndex(k)])
  }

  /** The 32 digit places of a 36-character string, dashes dropped. */
  function Undashed(s: string): (h: string)
    requires |s| == 36
    ensures |h| == 32
  {
    seq(32, j requires 0 <= j < 32 => s[DigitPosition(j)])
  }

  lemma UndashedDashed(h: string)
    requires |h| == 32
    ensures Undashed(Dashed(h)) == h
  {
    forall j | 0 <= j < 32 ensures Undashed(Dashed(h))[j] == h[j] {
      assert DigitIndex(DigitPosition(j)) == j;
    }
  }

  /** `uuid.Parse` for the canonical form xxxxxxxx-xxxx-xxxx-xxxx-xxxxxxxxxxxx
      and for 32 bare hexadecimal digits, of either case; any other string is
      rejected. */
  function Parse(s: string): (r: Option<Uuid>)
    ensures r.Some? ==> |s| == 32 || |s| == 36
  {
    if |s| == 36 then
      if s[8] == '-' && s[13] == '-' && s[18] == '-' && s[23] == '-' then ParseHex(Undashed(s))
      else None
    else if |s| == 32 then ParseHex(s)
    else None
  }

  /** `uuid.UUID.String`: the canonical, lower-case, dashed form. */
  function Format(u: Uuid): (s: string)
    ensures |s| == 36
    ensures forall k :: 0 <= k < 36 ==> (s[k] == '-' <==> IsDashPosition(k))
    ensures forall k :: 0 <= k < 36 && !IsDashPosition(k) ==> '0' <= s[k] <= '9' || 'a' <= s[k] <= 'f'
  {
    Dashed(FormatHex(u))
  }

  /** The text an id is given out as reads back as the same id. */
  lemma ParseFormat(u: Uuid)
    ensures Parse(Format(u)) == Some(u)
  {
    UndashedDashed(FormatHex(u));
    ParseFormatHex(u);
  }

  /** Exactly the strings `Parse` accepts: 36 characters with dashes at
      places 8, 13, 18 and 23 and a hexadecimal digit everywhere else, or
      32 hexadecimal digits. */
  lemma ParseAccepts(s: string)
    ensures Parse(s).Some? <==>
      || (&& |s| == 36
          && forall k :: 0 <= k < 36 ==> if IsDashPosition(k) then s[k] == '-' else IsHex(s[k]))
      || (|s| == 32 && forall k :: 0 <= k < 32 ==> IsHex(s[k]))
  {
    if |s| == 36 && s[8] == '-' && s[13] == '-' && s[18] == '-' && s[23] == '-' {
      var h := Undashed(s);
      if ParseHex(h).Some? {
        forall k | 0 <= k < 36 && !IsDashPosition(k) ensures IsHex(s[k]) {
          assert h[DigitIndex(k)] == s[k];
        }
      }
    }
  }

  /** The ASCII lower-case of a character; what `String` does to the
      hexadecimal letters it reads. */
  function ToLower(c: char): (l: char)
    ensures 'A' <= c <= 'Z' ==> l as int == c as int + 32
    ensures !('A' <= c <= 'Z') ==> l == c
  {
    if 'A' <= c <= 'Z' then (c as int + 32) as char else c
  }

  function Lowered(s: string): (l: string)
    ensures |l| == |s|
  {
    seq(|s|, i requires 0 <= i < |s| => ToLower(s[i]))
  }

  /** Writing back the value of a hexadecimal digit gives its lower-case form. */
  lemma HexDigitOfValue(c: char)
    requires IsHex(c)
    ensures HexDigit(HexValue(c).value) == ToLower(c)
  {
  }

  lemma FormatHexParseHex(s: string)
    requires ParseHex(s).Some?
    ensures FormatHex(ParseHex(s).value) == Lowered(s)
  {
    var ds := ParseHex(s).value;
    forall i | 0 <= i < |s| ensures FormatHex(ds)[i] == Lowered(s)[i] {
      HexDigitOfValue(s[i]);
    }
  }

  /** The other round trip: an accepted string is given back lower-cased,
      with the dashes put in when it had none. */
  lemma FormatParse(s: string, u: Uuid)
    requires Parse(s) == Some(u)
    ensures Format(u) == if |s| == 36 then Lowered(s) else Dashed(Lowered(s))
  {
    if |s| == 36 {
      var h := Undashed(s);
      FormatHexParseHex(h);
      forall k | 0 <= k < 36 ensures Format(u)[k] == Lowered(s)[k] {
        if !IsDashPosition(k) {
          assert Lowered(h)[DigitIndex(k)] == ToLower(s[k]);
        }
      }
    } else {
      FormatHexParseHex(s);
    }
  }

  /** Two different ids never share a textual form. */
  lemma FormatInjective(u: Uuid, v: Uuid)
    requires Format(u) == Format(v)
    ensures u == v
  {
    ParseFormat(u);
    ParseFormat(v);
  }

  lemma Version4IsNotNil(u: Uuid)
    requires IsVersion4(u)
    ensures u != NilId
  {
  }
}
