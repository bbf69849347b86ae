/** Condition messages: an error's text, cut to a bounded length without leaving a
    partial character, at the level of bytes. */
module Messages {

  type Byte = b: int | 0 <= b < 256

  const MAX := 1024

  /** The three bytes of the horizontal ellipsis. */
  const ELLIPSIS: seq<Byte> := [0xE2, 0x80, 0xA6]

  predicate Tail(b: Byte) {
    0x80 <= b <= 0xBF
  }

  /** The second byte a lead byte of three or four allows (section 4 of RFC 3629). */
  predicate Second(lead: Byte, b: Byte) {
    if lead == 0xE0 then 0xA0 <= b <= 0xBF
    else if lead == 0xED then 0x80 <= b <= 0x9F
    else if lead == 0xF0 then 0x90 <= b <= 0xBF
    else if lead == 0xF4 then 0x80 <= b <= 0x8F
    else Tail(b)
  }

  /** How many bytes the character at the front takes; 0 if there is no valid one. */
  function Width(s: seq<Byte>): (w: nat)
    ensures w <= |s|
  {
    if s == [] then 0
    else if s[0] <= 0x7F then 1
    else if 0xC2 <= s[0] <= 0xDF then if |s| >= 2 && Tail(s[1]) then 2 else 0
    else if 0xE0 <= s[0] <= 0xEF then
      if |s| >= 3 && Second(s[0], s[1]) && Tail(s[2]) then 3 else 0
    else if 0xF0 <= s[0] <= 0xF4 then
      if |s| >= 4 && Second(s[0], s[1]) && Tail(s[2]) && Tail(s[3]) then 4 else 0
    else 0
  }

  predicate ValidUtf8(s: seq<Byte>)
    decreases |s|
  {
    s == [] || (Width(s) > 0 && ValidUtf8(s[Width(s)..]))
  }

  // ---- what the widths are widths of ----

  /** The characters of Unicode: code points that are no surrogates. */
  predicate Scalar(c: int) {
    0 <= c <= 0x10FFFF && !(0xD800 <= c <= 0xDFFF)
  }

  /** The encoding of a character (section 3 of RFC 3629). */
  function Encoded(c: int): (s: seq<Byte>)
    requires Scalar(c)
    ensures 0 < |s| <= 4
  {
    if c < 0x80 then [c]
    else if c < 0x800 then [0xC0 + c / 0x40, 0x80 + c % 0x40]
    else if c < 0x10000 then [0xE0 + c / 0x1000, 0x80 + c / 0x40 % 0x40, 0x80 + c % 0x40]
    else [0xF0 + c / 0x40000, 0x80 + c / 0x1000 % 0x40, 0x80 + c / 0x40 % 0x40, 0x80 + c % 0x40]
  }

  function EncodedAll(cs: seq<int>): seq<Byte>
    requires forall i :: 0 <= i < |cs| ==> Scalar(cs[i])
  {
    if cs == [] then [] else Encoded(cs[0]) + EncodedAll(cs[1..])
  }

  /** A character at the front is found, with its length. */
  lemma EncodedWidth(c: int, t: seq<Byte>)
    requires Scalar(c)
    ensures Width(Encoded(c) + t) == |Encoded(c)|
  {
    var (e, s) := (Encoded(c), Encoded(c) + t);
    assert |e| > 1 ==> s[1] == e[1];
    assert |e| > 2 ==> s[2] == e[2];
    assert |e| > 3 ==> s[3] == e[3];
  }

  lemma TwoBytes(a: int, b: int) returns (c: int)
    requires 0xC2 <= a <= 0xDF && 0x80 <= b <= 0xBF
    ensures Scalar(c) && Encoded(c) == [a, b]
  {
    c := (a - 0xC0) * 0x40 + (b - 0x80);
    assert c / 0x40 == a - 0xC0 && c % 0x40 == b - 0x80;
  }

  lemma ThreeBytes(a: int, b: int, d: int) returns (c: int)
    requires 0xE0 <= a <= 0xEF && 0x80 <= b <= 0xBF && 0x80 <= d <= 0xBF
    requires (a == 0xE0 ==> 0xA0 <= b) && (a == 0xED ==> b <= 0x9F)
    ensures Scalar(c) && Encoded(c) == [a, b, d]
  {
    var high := (a - 0xE0) * 0x40 + (b - 0x80);
    c := high * 0x40 + (d - 0x80);
    assert c / 0x40 == high && c % 0x40 == d - 0x80;
    assert high / 0x40 == a - 0xE0 && high % 0x40 == b - 0x80;
    assert c / 0x1000 == a - 0xE0;
  }

  lemma FourBytes(a: int, b: int, d: int, e: int) returns (c: int)
    requires 0xF0 <= a <= 0xF4 && 0x80 <= b <= 0xBF && 0x80 <= d <= 0xBF && 0x80 <= e <= 0xBF
    requires (a == 0xF0 ==> 0x90 <= b) && (a == 0xF4 ==> b <= 0x8F)
    ensures Scalar(c) && Encoded(c) == [a, b, d, e]
  {
    var top := (a - 0xF0) * 0x40 + (b - 0x80);
    var high := top * 0x40 + (d - 0x80);
    c := high * 0x40 + (e - 0x80);
    assert c / 0x40 == high && c % 0x40 == e - 0x80;
    assert high / 0x40 == top && high % 0x40 == d - 0x80;
    assert top / 0x40 == a - 0xF0 && top % 0x40 == b - 0x80;
    assert c / 0x1000 == top && c / 0x40000 == a - 0xF0;
  }

  /** And whatever is found is one. */
  lemma WidthDecodes(s: seq<Byte>) returns (c: int)
    requires Width(s) > 0
    ensures Scalar(c) && s[..Width(s)] == Encoded(c)
  {
    hide Encoded;
    var w := Width(s);
    if w == 1 {
      c := s[0];
      OneByte(c);
    } else if w == 2 {
      c := TwoBytes(s[0], s[1]);
      assert s[..2] == [s[0], s[1]];
    } else if w == 3 {
      c := ThreeBytes(s[0], s[1], s[2]);
      assert s[..3] == [s[0], s[1], s[2]];
    } else {
      c := FourBytes(s[0], s[1], s[2], s[3]);
      assert s[..4] == [s[0], s[1], s[2], s[3]];
    }
  }

  lemma OneByte(c: int)
    requires 0 <= c <= 0x7F
    ensures Scalar(c) && Encoded(c) == [c]
  {
  }

  /** A text is valid exactly if it is the encoding of some characters. */
  lemma ValidExactly(s: seq<Byte>)
    ensures ValidUtf8(s) <==> exists cs: seq<int> :: Encodes(cs, s)
  {
    if ValidUtf8(s) {
      var cs := Decoded(s);
    }
    forall cs: seq<int> | Encodes(cs, s)
      ensures ValidUtf8(s)
    {
      EncodedIsValid(cs);
    }
  }

  predicate Encodes(cs: seq<int>, s: seq<Byte>) {
    (forall i :: 0 <= i < |cs| ==> Scalar(cs[i])) && s == EncodedAll(cs)
  }

  lemma {:induction false} Decoded(s: seq<Byte>) returns (cs: seq<int>)
    requires ValidUtf8(s)
    ensures Encodes(cs, s)
    decreases |s|
  {
    if s == [] {
      cs := [];
    } else {
      var c := WidthDecodes(s);
      var rest := Decoded(s[Width(s)..]);
      cs := [c] + rest;
      assert cs[1..] == rest && s == s[..Width(s)] + s[Width(s)..];
    }
  }

  lemma {:induction false} EncodedIsValid(cs: seq<int>)
    requires forall i :: 0 <= i < |cs| ==> Scalar(cs[i])
    ensures ValidUtf8(EncodedAll(cs))
  {
    if cs != [] {
      var (e, rest) := (Encoded(cs[0]), EncodedAll(cs[1..]));
      EncodedIsValid(cs[1..]);
      EncodedWidth(cs[0], rest);
      assert (e + rest)[|e|..] == rest;
    }
  }

  /** The text without its invalid bytes. */
  function Clean(s: seq<Byte>): seq<Byte>
    decreases |s|
  {
    if s == [] then []
    else if Width(s) == 0 then Clean(s[1..])
    else s[..Width(s)] + Clean(s[Width(s)..])
  }

  method ToValidUtf8(s: seq<Byte>) returns (r: seq<Byte>)
    ensures r == Clean(s)
  {
    hide Width;
    r := [];
    var i := 0;
    while i < |s|
      invariant 0 <= i <= |s|
      invariant r + Clean(s[i..]) == Clean(s)
    {
      var w := Width(s[i..]);
      if w == 0 {
        assert s[i..][1..] == s[i + 1..] && Clean(s[i..]) == Clean(s[i + 1..]);
        i := i + 1;
      } else {
        assert s[i..][..w] == s[i..i + w] && s[i..][w..] == s[i + w..];
        assert Clean(s[i..]) == s[i..i + w] + Clean(s[i + w..]);
        assert r + s[i..i + w] + Clean(s[i + w..]) == r + (s[i..i + w] + Clean(s[i + w..]));
        r := r + s[i..i + w];
        i := i + w;
      }
    }
  }

  method ConditionMessage(text: seq<Byte>) returns (m: seq<Byte>)
    ensures |text| <= 1024 ==> m == text
    // a cut message is always valid and bounded, whatever the text
    ensures |text| > 1024 ==> ValidUtf8(m) && |m| <= 1027
    // and a valid text is cut between characters, as late as the bound allows, and U+2026,
    // the horizontal ellipsis, is put in the place of the rest
    ensures |text| > 1024 && ValidUtf8(text) ==>
      var kept := |m| - 3;
      && 1021 <= kept <= 1024 && m == text[..kept] + Encoded(0x2026)
      && ValidUtf8(text[..kept]) && ValidUtf8(text[kept..])
      && forall k :: kept < k <= 1024 ==> !ValidUtf8(text[..k])
  {
    m := text;
    if |m| > MAX {
      var cut := ToValidUtf8(m[..MAX]);
      m := cut + ELLIPSIS;
      CleanIsValid(text[..MAX]);
      ValidConcat(cut, ELLIPSIS);
      if ValidUtf8(text) {
        var kept := CleanPrefix(text, MAX);
        assert cut == text[..kept];
        assert Encoded(0x2026) == ELLIPSIS;
        forall k | kept < k <= 1024
          ensures !ValidUtf8(text[..k])
        {
          if ValidUtf8(text[..k]) {
            KeepsMost(text, MAX, kept, k);
          }
        }
      }
    }
  }

  lemma WidthOfFront(s: seq<Byte>, t: seq<Byte>)
    requires Width(s) > 0
    ensures Width(s[..Width(s)] + t) == Width(s)
  {
    var u := s[..Width(s)] + t;
    assert forall i :: 0 <= i < Width(s) ==> u[i] == s[i];
  }

  lemma {:induction false} CleanIsValid(s: seq<Byte>)
    ensures ValidUtf8(Clean(s)) && |Clean(s)| <= |s|
    decreases |s|
  {
    if s != [] {
      var w := Width(s);
      if w == 0 {
        CleanIsValid(s[1..]);
      } else {
        CleanIsValid(s[w..]);
        WidthOfFront(s, Clean(s[w..]));
        assert Clean(s)[w..] == Clean(s[w..]);
      }
    }
  }

  /** Valid characters stay where they are, whatever follows them. */
  lemma {:induction false} CleanKeeps(a: seq<Byte>, b: seq<Byte>)
    requires ValidUtf8(a)
    ensures Clean(a + b) == a + Clean(b)
    decreases |a|
  {
    hide Width;
    if a == [] {
      assert a + b == b;
    } else {
      var w := Width(a);
      CleanKeeps(a[w..], b);
      WidthOfFront(a, a[w..] + b);
      assert a + b == a[..w] + (a[w..] + b);
      assert (a + b)[w..] == a[w..] + b && (a + b)[..w] == a[..w];
    }
  }

  lemma {:induction false} ValidConcat(a: seq<Byte>, b: seq<Byte>)
    requires ValidUtf8(a) && ValidUtf8(b)
    ensures ValidUtf8(a + b)
    decreases |a|
  {
    if a == [] {
      assert a + b == b;
    } else {
      var w := Width(a);
      ValidConcat(a[w..], b);
      WidthOfFront(a, a[w..] + b);
      assert a + b == a[..w] + (a[w..] + b);
      assert (a + b)[w..] == a[w..] + b;
    }
  }

  /** A character cut short leaves nothing: its lead byte lacks bytes, and the others
      cannot start a character. */
  lemma CutCharacter(s: seq<Byte>, n: nat)
    requires 0 < n < Width(s)
    ensures Clean(s[..n]) == []
  {
    var t := s[..n];
    assert Width(t) == 0;
    forall i | 0 <= i < |t[1..]|
      ensures Tail(t[1..][i])
    {
      assert t[1..][i] == s[i + 1];
    }
    TailsVanish(t[1..]);
  }

  lemma {:induction false} TailsVanish(s: seq<Byte>)
    requires forall i :: 0 <= i < |s| ==> Tail(s[i])
    ensures Clean(s) == []
  {
    if s != [] {
      assert Tail(s[0]);
      TailsVanish(s[1..]);
    }
  }

  lemma WholeIsPositive(s: seq<Byte>)
    requires ValidUtf8(s) && s != []
    ensures 0 < Width(s) <= |s| && Width(s) <= 4 && ValidUtf8(s[Width(s)..])
  {
  }

  lemma CleanWhole(s: seq<Byte>, n: nat)
    requires 0 < Width(s) <= n <= |s|
    ensures Clean(s[..n]) == s[..Width(s)] + Clean(s[Width(s)..][..n - Width(s)])
  {
    var w := Width(s);
    assert s[..n] == s[..w] + s[w..][..n - w];
    WidthOfFront(s, s[w..][..n - w]);
    assert s[..n][..w] == s[..w] && s[..n][w..] == s[w..][..n - w];
  }

  /** The first `n` bytes, cleaned, are the first `kept`, which end a character. */
  ghost predicate Keeps(s: seq<Byte>, n: nat, kept: nat) {
    && n <= |s| && kept <= n <= kept + 3
    && Clean(s[..n]) == s[..kept] && ValidUtf8(s[..kept]) && ValidUtf8(s[kept..])
  }

  lemma KeepsNothing(s: seq<Byte>, n: nat)
    requires ValidUtf8(s) && n <= |s| && n <= 3 && Clean(s[..n]) == []
    ensures Keeps(s, n, 0)
  {
    assert s[..0] == [] && s[0..] == s;
  }

  lemma KeepsMore(s: seq<Byte>, n: nat, kept: nat)
    requires ValidUtf8(s) && 0 < Width(s) <= n <= |s|
    requires Keeps(s[Width(s)..], n - Width(s), kept)
    ensures Keeps(s, n, Width(s) + kept)
  {
    hide Width, Clean, ValidUtf8;
    CleanWhole(s, n);
    CleanIsValid(s[..n]);
    var (w, rest) := (Width(s), s[Width(s)..]);
    assert s[..w] + rest[..kept] == s[..w + kept];
    assert rest[kept..] == s[w + kept..];
  }

  /** And no more could have been kept. */
  lemma KeepsMost(s: seq<Byte>, n: nat, kept: nat, k: nat)
    requires Keeps(s, n, kept) && k <= n && ValidUtf8(s[..k])
    ensures k <= kept
  {
    CleanKeeps(s[..k], s[..n][k..]);
    assert s[..k] + s[..n][k..] == s[..n];
  }

  /** Cleaning the first `n` bytes of a valid text keeps its whole characters. */
  lemma {:induction false} CleanPrefix(s: seq<Byte>, n: nat) returns (kept: nat)
    requires ValidUtf8(s) && n <= |s|
    ensures Keeps(s, n, kept)
    decreases |s|
  {
    if n == 0 {
      assert s[..0] == [];
      KeepsNothing(s, 0);
      kept := 0;
    } else if Width(s) > n {
      CutCharacter(s, n);
      KeepsNothing(s, n);
      kept := 0;
    } else {
      WholeIsPositive(s);
      var k := CleanPrefix(s[Width(s)..], n - Width(s));
      KeepsMore(s, n, k);
      kept := Width(s) + k;
    }
  }
}
