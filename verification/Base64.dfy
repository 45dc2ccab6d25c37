// The base64 decoder, against the encoding of section 4 of RFC 4648.
module Base64 {
  import opened Lists

  const UPPER := "ABCDEFGHIJKLM" + "NOPQRSTUVWXYZ"
  const LOWER := "abcdefghijklm" + "nopqrstuvwxyz"
  const DIGITS := "0123456789"
  const TABLE := UPPER + LOWER + DIGITS + "+/"

  lemma UpperCodes()
    ensures |UPPER| == 26 && forall i :: 0 <= i < 26 ==> UPPER[i] as int == 65 + i
  {
    var a, b := "ABCDEFGHIJKLM", "NOPQRSTUVWXYZ";
    assert forall i :: 0 <= i < 13 ==> a[i] as int == 65 + i;
    assert forall i :: 0 <= i < 13 ==> b[i] as int == 78 + i;
  }

  lemma LowerCodes()
    ensures |LOWER| == 26 && forall i :: 0 <= i < 26 ==> LOWER[i] as int == 97 + i
  {
    var a, b := "abcdefghijklm", "nopqrstuvwxyz";
    assert forall i :: 0 <= i < 13 ==> a[i] as int == 97 + i;
    assert forall i :: 0 <= i < 13 ==> b[i] as int == 110 + i;
  }

  lemma DigitCodes()
    ensures |DIGITS| == 10 && forall i :: 0 <= i < 10 ==> DIGITS[i] as int == 48 + i
  {
  }

  function CodeAt(i: nat): int {
    if i < 26 then 65 + i
    else if i < 52 then 97 + (i - 26)
    else if i < 62 then 48 + (i - 52)
    else if i == 62 then 43
    else 47
  }

  // 64 different characters, none of them the padding character.
  lemma TableCodes()
    ensures |TABLE| == 64 && Distinct(TABLE) && '=' !in TABLE
    ensures forall i :: 0 <= i < 64 ==> TABLE[i] as int == CodeAt(i) < 256
  {
    hide UPPER, LOWER, DIGITS;
    UpperCodes();
    LowerCodes();
    DigitCodes();
  }

  // ------------------------------------------------------------------- the encoding

  lemma BitsBelow64(v: bv8)
    requires v < 64
    ensures 0 <= v as int < 64 && (v as int) as bv8 == v
  {
  }

  // The character for six bits.
  function Symbol(v: bv8): char
    requires v < 64
  {
    hide TABLE;
    TableCodes();
    BitsBelow64(v);
    TABLE[v as int]
  }

  lemma IndexBelow64(i: nat)
    requires i < 64
    ensures i as bv8 < 64 && (i as bv8) as int == i
  {
  }

  // The 24 bits of three bytes, six at a time.
  function Six0(x: bv8): (v: bv8) ensures v < 64 { x >> 2 }

  function Six1(x: bv8, y: bv8): (v: bv8) ensures v < 64 { ((x & 3) << 4) | (y >> 4) }

  function Six2(y: bv8, z: bv8): (v: bv8) ensures v < 64 { ((y & 15) << 2) | (z >> 6) }

  function Six3(z: bv8): (v: bv8) ensures v < 64 { z & 63 }

  // Three bytes and four sextets, read as one number of 24 bits, highest first, are the same.
  lemma SixesAreTheBits(x: bv8, y: bv8, z: bv8)
    ensures (Six0(x) as bv24 << 18) | (Six1(x, y) as bv24 << 12) | (Six2(y, z) as bv24 << 6) | (Six3(z) as bv24)
         == (x as bv24 << 16) | (y as bv24 << 8) | (z as bv24)
  {
  }

  // Without padding: the bits missing from a last short group are zero.
  function Symbols(bs: seq<bv8>): string {
    if |bs| == 0 then []
    else if |bs| == 1 then [Symbol(Six0(bs[0])), Symbol(Six1(bs[0], 0))]
    else if |bs| == 2 then [Symbol(Six0(bs[0])), Symbol(Six1(bs[0], bs[1])), Symbol(Six2(bs[1], 0))]
    else
      [Symbol(Six0(bs[0])), Symbol(Six1(bs[0], bs[1])), Symbol(Six2(bs[1], bs[2])), Symbol(Six3(bs[2]))]
      + Symbols(bs[3..])
  }

  function Padding(n: nat): string {
    if n % 3 == 1 then "==" else if n % 3 == 2 then "=" else ""
  }

  function Encode(bs: seq<bv8>): string {
    Symbols(bs) + Padding(|bs|)
  }

  // ------------------------------------------------------------------- the decoding

  lemma TableLength()
    ensures |TABLE| == 64
  {
    hide TABLE;
    TableCodes();
  }

  // What the lookup array holds for a character: its place in the table, or 0.
  function SixOf(c: char): bv8 {
    TableLength();
    var i := IndexOf(TABLE, c);
    if i == -1 then 0 else i as bv8
  }

  // Reading past the end of the text gives 0 as well.
  function SixAt(s: string, i: nat): bv8 {
    if i < |s| then SixOf(s[i]) else 0
  }

  // /=+$/ replaced by nothing.
  function Stripped(s: string): string {
    if s != [] && s[|s| - 1] == '=' then Stripped(s[..|s| - 1]) else s
  }

  function Byte0(a: bv8, b: bv8): bv8 { (a << 2) | (b >> 4) }

  function Byte1(b: bv8, c: bv8): bv8 { ((b & 15) << 4) | (c >> 2) }

  function Byte2(c: bv8, d: bv8): bv8 { ((c & 3) << 6) | d }

  function Group(a: bv8, b: bv8, c: bv8, d: bv8, third: bool, fourth: bool): seq<bv8> {
    [Byte0(a, b)] + (if third then [Byte1(b, c)] else []) + (if fourth then [Byte2(c, d)] else [])
  }

  // The bytes one round of the loop stores.
  function GroupBytes(s: string): (bs: seq<bv8>)
    requires s != []
    ensures |bs| == if |s| > 3 then 3 else if |s| > 2 then 2 else 1
  {
    Group(SixAt(s, 0), SixAt(s, 1), SixAt(s, 2), SixAt(s, 3), |s| > 2, |s| > 3)
  }

  // All the bytes the loop stores, or tries to.
  function Written(s: string): seq<bv8> {
    if s == [] then []
    else if |s| <= 4 then GroupBytes(s)
    else GroupBytes(s) + Written(s[4..])
  }

  function OutLength(s: string): nat {
    |s| * 3 / 4
  }

  // The loop stores exactly the length allocated, or one byte more that is lost.
  lemma {:induction false} WrittenLength(s: string)
    ensures |Written(s)| == OutLength(s) + if |s| % 4 == 1 then 1 else 0
  {
    hide GroupBytes;
    if |s| > 4 {
      WrittenLength(s[4..]);
    }
  }

  function Decode(b64: string): seq<bv8> {
    var clean := Stripped(b64);
    WrittenLength(clean);
    Written(clean)[..OutLength(clean)]
  }

  lemma DecodeIs(b64: string)
    ensures OutLength(Stripped(b64)) <= |Written(Stripped(b64))|
    ensures Decode(b64) == Written(Stripped(b64))[..OutLength(Stripped(b64))]
  {
    hide Written;
    WrittenLength(Stripped(b64));
  }

  // Storing past the end of a typed array does nothing.
  method Store(bytes: array<bv8>, o: nat, v: bv8)
    modifies bytes
    ensures forall k :: 0 <= k < bytes.Length ==> bytes[k] == if k == o then v else old(bytes[k])
  {
    if o < bytes.Length {
      bytes[o] := v;
    }
  }

  method StoreGroup(bytes: array<bv8>, start: nat, a: bv8, b: bv8, c: bv8, d: bv8, third: bool, fourth: bool)
    returns (o: nat)
    modifies bytes
    ensures var group := Group(a, b, c, d, third, fourth);
            && o == start + |group|
            && forall k :: 0 <= k < bytes.Length ==>
                 bytes[k] == if start <= k < o then group[k - start] else old(bytes[k])
  {
    hide Byte0, Byte1, Byte2;
    o := start;
    Store(bytes, o, Byte0(a, b));
    o := o + 1;
    if third {
      Store(bytes, o, Byte1(b, c));
      o := o + 1;
    }
    if fourth {
      Store(bytes, o, Byte2(c, d));
      o := o + 1;
    }
  }

  ghost predicate IsLookup(lookup: seq<bv8>) {
    |lookup| == 256 && forall c: char {:trigger SixOf(c)} :: c as int < 256 ==> lookup[c as int] == SixOf(c)
  }

  lemma ForeignIsZero(c: char)
    requires c !in TABLE || c as int >= 256
    ensures SixOf(c) == 0
  {
    hide TABLE;
    TableCodes();
  }

  method Look(lookup: array<bv8>, s: string, i: nat) returns (v: bv8)
    requires IsLookup(lookup[..])
    ensures v == SixAt(s, i)
  {
    hide TABLE, SixOf;
    if i >= |s| {
      v := 0;
    } else if s[i] as int < 256 {
      v := lookup[s[i] as int];
    } else {
      ForeignIsZero(s[i]);
      v := 0;
    }
  }

  method BuildLookup() returns (lookup: array<bv8>)
    ensures fresh(lookup) && IsLookup(lookup[..])
  {
    hide TABLE, IndexOf, Distinct;
    TableCodes();
    lookup := new bv8[256](_ => 0);
    for i := 0 to |TABLE|
      invariant forall c: char {:trigger IndexOf(TABLE, c)} :: c as int < 256 ==>
                  lookup[c as int] == if 0 <= IndexOf(TABLE, c) < i then IndexOf(TABLE, c) as bv8 else 0
    {
      IndexOfDistinct(TABLE, i);
      lookup[TABLE[i] as int] := i as bv8;
    }
  }

  function Rest(s: string, i: nat): string {
    if i < |s| then s[i..] else []
  }

  lemma RestStarts(s: string)
    ensures Written(Rest(s, 0)) == Written(s)
  {
    assert s[0..] == s;
  }

  lemma WrittenStep(s: string, i: nat)
    requires i < |s|
    ensures Rest(s, i) != [] && Written(Rest(s, i)) == GroupBytes(Rest(s, i)) + Written(Rest(s, i + 4))
  {
    hide GroupBytes;
    if |s[i..]| > 4 {
      assert s[i..][4..] == s[i + 4..];
    }
  }

  lemma WrittenNothing(s: string, i: nat)
    requires |s| <= i
    ensures Written(Rest(s, i)) == []
  {
  }

  lemma GroupIs(s: string, i: nat, a: bv8, b: bv8, c: bv8, d: bv8)
    requires i < |s|
    requires a == SixAt(s, i) && b == SixAt(s, i + 1) && c == SixAt(s, i + 2) && d == SixAt(s, i + 3)
    ensures Rest(s, i) != []
    ensures GroupBytes(Rest(s, i)) == Group(a, b, c, d, i + 2 < |s|, i + 3 < |s|)
  {
    hide SixOf, Byte0, Byte1, Byte2;
  }

  // Storing one more group fills the array that much further.
  lemma GroupFilled(all: seq<bv8>, o: nat, group: seq<bv8>, rest: seq<bv8>, before: seq<bv8>, after: seq<bv8>)
    requires o <= |all| && all == all[..o] + (group + rest) && |before| == |after|
    requires forall k :: 0 <= k < o && k < |before| ==> before[k] == all[k]
    requires forall k :: 0 <= k < |after| ==> after[k] == if o <= k < o + |group| then group[k - o] else before[k]
    ensures o + |group| <= |all| && all == all[..o + |group|] + rest
    ensures forall k :: 0 <= k < o + |group| && k < |after| ==> after[k] == all[k]
  {
    assert forall k :: 0 <= k < |group| ==> all[o + k] == group[k];
  }

  // One turn of the loop: four look-ups, up to three bytes.
  method DecodeGroup(bytes: array<bv8>, start: nat, lookup: array<bv8>, s: string, i: nat) returns (o: nat)
    requires bytes != lookup && IsLookup(lookup[..]) && i < |s|
    modifies bytes
    ensures Rest(s, i) != []
    ensures var group := GroupBytes(Rest(s, i));
            && o == start + |group|
            && forall k :: 0 <= k < bytes.Length ==>
                 bytes[k] == if start <= k < o then group[k - start] else old(bytes[k])
  {
    hide TABLE, GroupBytes, SixOf, SixAt, Group, IsLookup, Rest;
    var a := Look(lookup, s, i);
    var b := Look(lookup, s, i + 1);
    var c := Look(lookup, s, i + 2);
    var d := Look(lookup, s, i + 3);
    GroupIs(s, i, a, b, c, d);
    o := StoreGroup(bytes, start, a, b, c, d, i + 2 < |s|, i + 3 < |s|);
  }

  method Base64ToArrayBuffer(b64: string) returns (bytes: array<bv8>)
    ensures fresh(bytes) && bytes[..] == Decode(b64)
  {
    hide *;
    DecodeIs(b64);
    RestStarts(Stripped(b64));
    var lookup := BuildLookup();
    var clean := Stripped(b64);
    var outLen := OutLength(clean);
    bytes := new bv8[outLen];
    ghost var all := Written(clean);
    ghost var table := lookup[..];
    var o: nat, i: nat := 0, 0;
    while i < |clean|
      invariant lookup[..] == table && o <= |all| && all == all[..o] + Written(Rest(clean, i))
      invariant forall k :: 0 <= k < o && k < outLen ==> bytes[..][k] == all[k]
      modifies bytes
      decreases |clean| - i
    {
      WrittenStep(clean, i);
      ghost var before, start := bytes[..], o;
      o := DecodeGroup(bytes, o, lookup, clean, i);
      GroupFilled(all, start, GroupBytes(Rest(clean, i)), Written(Rest(clean, i + 4)), before, bytes[..]);
      i := i + 4;
    }
    WrittenNothing(clean, i);
    assert all == all[..o];
  }

  // ------------------------------------------------------------------- the round trips

  lemma SymbolsAreTable(v: bv8)
    requires v < 64
    ensures Symbol(v) in TABLE && Symbol(v) != '=' && SixOf(Symbol(v)) == v
  {
    hide TABLE;
    TableCodes();
    BitsBelow64(v);
    IndexOfDistinct(TABLE, v as int);
  }

  lemma ThreeBytes(x: bv8, y: bv8, z: bv8)
    ensures Byte0(Six0(x), Six1(x, y)) == x
    ensures Byte1(Six1(x, y), Six2(y, z)) == y
    ensures Byte2(Six2(y, z), Six3(z)) == z
  {
  }

  // Four sextets are three bytes; with zeros at the end of a short group, one or two.
  lemma FourSextets(a: bv8, b: bv8, c: bv8, d: bv8)
    requires a < 64 && b < 64 && c < 64 && d < 64
    ensures Six0(Byte0(a, b)) == a
    ensures Six1(Byte0(a, b), Byte1(b, c)) == b
    ensures Six2(Byte1(b, c), Byte2(c, d)) == c
    ensures Six3(Byte2(c, d)) == d
    ensures Six1(Byte0(a, b), 0) == b <==> b & 15 == 0
    ensures Six2(Byte1(b, c), 0) == c <==> c & 3 == 0
  {
  }

  // The byte at i, or zero bits past the end.
  function ByteAt(bs: seq<bv8>, i: nat): bv8 {
    if i < |bs| then bs[i] else 0
  }

  // What the decoder looks up in the first group of an encoding.
  lemma SymbolSixes(bs: seq<bv8>)
    requires |bs| > 0
    ensures var s, x, y, z := Symbols(bs), bs[0], ByteAt(bs, 1), ByteAt(bs, 2);
            && (|s| > 2 <==> |bs| > 1) && (|s| > 3 <==> |bs| > 2) && |s| > 1
            && SixAt(s, 0) == Six0(x) && SixAt(s, 1) == Six1(x, y)
            && (|bs| > 1 ==> SixAt(s, 2) == Six2(y, z))
            && (|bs| > 2 ==> SixAt(s, 3) == Six3(z))
  {
    hide SixOf, Symbol, Six0, Six1, Six2, Six3;
    var x, y, z := bs[0], ByteAt(bs, 1), ByteAt(bs, 2);
    SymbolsAreTable(Six0(x));
    SymbolsAreTable(Six1(x, y));
    SymbolsAreTable(Six2(y, z));
    SymbolsAreTable(Six3(z));
  }

  lemma SymbolGroup(bs: seq<bv8>)
    requires |bs| > 0
    ensures |Symbols(bs)| > 1 && GroupBytes(Symbols(bs)) == if |bs| > 2 then bs[..3] else bs
  {
    hide Symbols, SixAt, Byte0, Byte1, Byte2, Six0, Six1, Six2, Six3;
    SymbolSixes(bs);
    ThreeBytes(bs[0], ByteAt(bs, 1), ByteAt(bs, 2));
  }

  lemma SymbolsSplit(bs: seq<bv8>)
    requires |bs| > 2
    ensures |Symbols(bs)| >= 4 && Symbols(bs)[4..] == Symbols(bs[3..])
    ensures |Symbols(bs)| == 4 + |Symbols(bs[3..])|
    ensures Written(Symbols(bs)) == GroupBytes(Symbols(bs)) + Written(Symbols(bs[3..]))
  {
    hide Symbol, GroupBytes, Six0, Six1, Six2, Six3;
  }

  lemma FourForThree(m: nat, n: nat)
    ensures (4 + m) % 4 == m % 4 && (3 + n) % 3 == n % 3
  {
  }

  lemma {:induction false} WrittenShort(bs: seq<bv8>)
    requires |bs| <= 2
    ensures Written(Symbols(bs)) == bs
    ensures |Symbols(bs)| == if |bs| == 0 then 0 else |bs| + 1
  {
    hide Symbol, GroupBytes, Six0, Six1, Six2, Six3;
    if |bs| > 0 {
      SymbolGroup(bs);
    }
  }

  lemma {:induction false} WrittenSymbols(bs: seq<bv8>)
    ensures Written(Symbols(bs)) == bs
    ensures |Symbols(bs)| % 4 == (if |bs| % 3 == 0 then 0 else |bs| % 3 + 1)
  {
    hide *;
    if |bs| <= 2 {
      WrittenShort(bs);
    } else {
      SymbolGroup(bs);
      WrittenSymbols(bs[3..]);
      SymbolsSplit(bs);
      assert bs == bs[..3] + bs[3..];
      FourForThree(|Symbols(bs[3..])|, |bs[3..]|);
    }
  }

  lemma {:induction false} SymbolsInTable(bs: seq<bv8>)
    ensures forall c :: c in Symbols(bs) ==> c in TABLE && c != '='
  {
    hide TABLE, Symbol, Six0, Six1, Six2, Six3;
    if |bs| > 0 {
      var x, y, z := bs[0], ByteAt(bs, 1), ByteAt(bs, 2);
      SymbolsAreTable(Six0(x));
      SymbolsAreTable(Six1(x, y));
      SymbolsAreTable(Six2(y, z));
      SymbolsAreTable(Six3(z));
      if |bs| > 2 {
        SymbolsInTable(bs[3..]);
      }
    }
  }

  // Stripping takes off the padding and nothing else.
  lemma {:induction false} StripPadding(s: string, pad: string)
    requires (forall c :: c in pad ==> c == '=') && (s == [] || s[|s| - 1] != '=')
    ensures Stripped(s + pad) == s
  {
    if pad == [] {
      assert s + pad == s;
    } else {
      var n := |pad| - 1;
      assert forall c :: c in pad[..n] ==> c in pad;
      assert pad[n] in pad && (s + pad)[..|s| + n] == s + pad[..n];
      StripPadding(s, pad[..n]);
    }
  }

  // Decoding an encoding gives the bytes back.
  lemma DecodeEncode(bs: seq<bv8>)
    ensures Stripped(Encode(bs)) == Symbols(bs)
    ensures Decode(Encode(bs)) == bs
  {
    hide Symbols, Written;
    var s := Symbols(bs);
    SymbolsInTable(bs);
    if s != [] { assert s[|s| - 1] in s; }
    StripPadding(s, Padding(|bs|));
    WrittenSymbols(bs);
    WrittenLength(s);
  }

  // ------------------------------------------------------------ which texts come back

  predicate NoBitsLeft(s: string) {
    && |s| % 4 != 1
    && (|s| % 4 == 2 ==> SixAt(s, |s| - 1) & 15 == 0)
    && (|s| % 4 == 3 ==> SixAt(s, |s| - 1) & 3 == 0)
  }

  // What the encoding produces: table characters, the bits left over in a short last group
  // zero, padded to a multiple of four.
  predicate Canonical(b64: string) {
    var s := Stripped(b64);
    (forall c :: c in s ==> c in TABLE) && NoBitsLeft(s) && |b64| == |s| + (4 - |s| % 4) % 4
  }

  lemma SameTail(b64: string, s: string, pad: string)
    requires |b64| == |s| + |pad| && b64[..|s|] == s
    requires (forall k :: |s| <= k < |b64| ==> b64[k] == '=') && (forall c :: c in pad ==> c == '=')
    ensures b64 == s + pad
  {
    forall k | |s| <= k < |b64|
      ensures b64[k] == pad[k - |s|]
    {
      assert pad[k - |s|] in pad;
    }
  }

  lemma PaddingFits(n: nat, m: nat)
    requires m % 4 == if n % 3 == 0 then 0 else n % 3 + 1
    ensures |Padding(n)| == (4 - m % 4) % 4 && forall c :: c in Padding(n) ==> c == '='
  {
  }

  lemma LeftOver(x: bv8, y: bv8)
    ensures Six1(x, 0) & 15 == 0 && Six2(y, 0) & 3 == 0
  {
  }

  lemma BitsLeftInRest(s: string)
    requires |s| > 4
    ensures NoBitsLeft(s[4..]) <==> NoBitsLeft(s)
  {
    hide SixOf;
  }

  lemma {:induction false} SymbolsLeaveNone(bs: seq<bv8>)
    ensures NoBitsLeft(Symbols(bs))
  {
    hide TABLE, SixOf, SixAt, Symbol, Written, GroupBytes;
    if |bs| > 3 {
      SymbolsLeaveNone(bs[3..]);
      SymbolsSplit(bs);
      WrittenSymbols(bs);
      WrittenSymbols(bs[3..]);
      BitsLeftInRest(Symbols(bs));
    } else if |bs| == 3 {
      SymbolsSplit(bs);
    } else if |bs| > 0 {
      SymbolSixes(bs);
      LeftOver(bs[0], ByteAt(bs, 1));
    }
  }

  lemma EncodedIsCanonical(bs: seq<bv8>)
    ensures Canonical(Encode(bs))
  {
    hide TABLE, Symbols, NoBitsLeft, Stripped, Decode, Written, Padding;
    WrittenSymbols(bs);
    PaddingFits(|bs|, |Symbols(bs)|);
    DecodeEncode(bs);
    SymbolsInTable(bs);
    SymbolsLeaveNone(bs);
  }

  lemma {:induction false} StrippedRest(s: string)
    ensures |Stripped(s)| <= |s| && s[..|Stripped(s)|] == Stripped(s)
    ensures forall k :: |Stripped(s)| <= k < |s| ==> s[k] == '='
  {
    if s != [] && s[|s| - 1] == '=' {
      StrippedRest(s[..|s| - 1]);
    }
  }

  lemma NoSymbols()
    ensures Symbols([]) == []
  {
  }

  lemma OneIsShort(s: string)
    requires NoBitsLeft(s)
    ensures |s| != 1
  {
    hide SixAt;
  }

  lemma SymbolsJoin(group: seq<bv8>, rest: seq<bv8>)
    requires |group| == 3
    ensures Symbols(group + rest) == Symbols(group) + Symbols(rest)
  {
    hide Symbol, Six0, Six1, Six2, Six3;
    assert (group + rest)[3..] == rest;
  }

  lemma SymbolOfSix(s: string, i: nat)
    requires i < |s| && s[i] in TABLE
    ensures SixAt(s, i) < 64 && Symbol(SixAt(s, i)) == s[i]
  {
    hide TABLE;
    TableCodes();
    IndexBelow64(IndexOf(TABLE, s[i]));
  }

  // The symbols for one group of bytes are its characters.
  lemma GroupSymbols(s: string)
    requires (forall c :: c in s ==> c in TABLE) && |s| > 1 && (|s| < 4 ==> NoBitsLeft(s))
    ensures Symbols(GroupBytes(s)) == if |s| > 4 then s[..4] else s
  {
    hide TABLE, Symbol, SixOf, Byte0, Byte1, Byte2, Six0, Six1, Six2, Six3;
    var a, b, c, d := SixAt(s, 0), SixAt(s, 1), SixAt(s, 2), SixAt(s, 3);
    SymbolOfSix(s, 0);
    SymbolOfSix(s, 1);
    if |s| > 2 { SymbolOfSix(s, 2); }
    if |s| > 3 { SymbolOfSix(s, 3); }
    FourSextets(a, b, c, d);
  }

  lemma {:induction false} SymbolsOfWritten(s: string)
    requires (forall c :: c in s ==> c in TABLE) && NoBitsLeft(s)
    ensures Symbols(Written(s)) == s
  {
    hide TABLE, Symbols, GroupBytes, NoBitsLeft;
    if |s| > 4 {
      var rest := s[4..];
      assert forall c :: c in rest ==> c in s;
      BitsLeftInRest(s);
      SymbolsOfWritten(rest);
      GroupSymbols(s);
      SymbolsJoin(GroupBytes(s), Written(rest));
      assert s == s[..4] + rest;
    } else if s != [] {
      OneIsShort(s);
      GroupSymbols(s);
    } else {
      NoSymbols();
    }
  }

  // Exactly the canonical texts come back when their bytes are encoded again.
  lemma EncodeDecode(b64: string)
    ensures Encode(Decode(b64)) == b64 <==> Canonical(b64)
  {
    hide TABLE, Symbols, Written, SixAt, Padding;
    EncodedIsCanonical(Decode(b64));
    if Canonical(b64) {
      var s := Stripped(b64);
      SymbolsOfWritten(s);
      WrittenLength(s);
      StrippedRest(b64);
      WrittenSymbols(Written(s));
      PaddingFits(|Written(s)|, |s|);
      assert Decode(b64) == Written(s);
      SameTail(b64, s, Padding(|Written(s)|));
    }
  }

  lemma SameGroup(s: string, r: string)
    requires |s| >= 4 && |r| >= 4 && s[..4] == r[..4]
    ensures GroupBytes(s) == GroupBytes(r)
  {
    hide SixOf;
    assert forall k :: 0 <= k < 4 ==> s[k] == s[..4][k] == r[k];
  }

  // A single character left over after whole groups is dropped.
  lemma {:induction false} OrphanDropped(s: string)
    requires |s| % 4 == 1
    ensures OutLength(s) <= |Written(s)| && Written(s)[..OutLength(s)] == Written(s[..|s| - 1])
  {
    hide GroupBytes;
    WrittenLength(s);
    if |s| > 4 {
      var rest, whole := s[4..], s[..|s| - 1];
      OrphanDropped(rest);
      SameGroup(s, whole);
      assert whole[4..] == rest[..|rest| - 1];
      assert Written(s)[..OutLength(s)] == GroupBytes(s) + Written(rest)[..OutLength(rest)];
    }
  }
}
