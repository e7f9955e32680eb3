/** The remaining texts the bridge reads and writes: base64, object paths, and the texts of
    doubles. */
module Texts {
  import opened Wrappers

  // ------------------------------------------------------------ base64

  newtype byte = x: int | 0 <= x < 256

  /** The alphabet of section 4 of RFC 4648. */
  function Sextet(v: nat): char
    requires v < 64
  {
    if v < 26 then v as char + 'A'
    else if v < 52 then (v - 26) as char + 'a'
    else if v < 62 then (v - 52) as char + '0'
    else if v == 62 then '+' else '/'
  }

  function SextetValue(c: char): (r: Option<nat>)
    ensures r.Some? ==> r.value < 64
  {
    if 'A' <= c <= 'Z' then Some(c as int - 'A' as int)
    else if 'a' <= c <= 'z' then Some(c as int - 'a' as int + 26)
    else if '0' <= c <= '9' then Some(c as int - '0' as int + 52)
    else if c == '+' then Some(62)
    else if c == '/' then Some(63)
    else None
  }

  function Encode(bytes: seq<byte>): string {
    if bytes == [] then ""
    else if |bytes| == 1 then
      var a := bytes[0] as int;
      [Sextet(a / 4), Sextet(a % 4 * 16), '=', '=']
    else if |bytes| == 2 then
      var a, b := bytes[0] as int, bytes[1] as int;
      [Sextet(a / 4), Sextet(a % 4 * 16 + b / 16), Sextet(b % 16 * 4), '=']
    else
      Quantum(bytes[0], bytes[1], bytes[2]) + Encode(bytes[3..])
  }

  function Quantum(x: byte, y: byte, z: byte): (s: string)
    ensures |s| == 4
  {
    var a, b, c := x as int, y as int, z as int;
    [Sextet(a / 4), Sextet(a % 4 * 16 + b / 16), Sextet(b % 16 * 4 + c / 64), Sextet(c % 64)]
  }

  /** QByteArray::fromBase64Encoding, aborting on errors: the padding may be missing, and the bits of
      an unfinished byte are dropped. */
  function Decode(s: string): Option<seq<byte>> {
    if s == "" then Some([])
    else
      var p :- SextetValue(s[0]);
      if |s| == 1 then Some([])
      else
        var q :- SextetValue(s[1]);
        if |s| == 2 || (|s| == 4 && s[2] == '=' && s[3] == '=') then Some([(p * 4 + q / 16) as byte])
        else
          var r :- SextetValue(s[2]);
          if |s| == 3 || (|s| == 4 && s[3] == '=') then Some([(p * 4 + q / 16) as byte, (q % 16 * 16 + r / 4) as byte])
          else
            var t :- SextetValue(s[3]);
            var rest :- Decode(s[4..]);
            Some([(p * 4 + q / 16) as byte, (q % 16 * 16 + r / 4) as byte, (r % 4 * 64 + t) as byte] + rest)
  }

  lemma SextetRoundTrip(v: nat)
    requires v < 64
    ensures SextetValue(Sextet(v)) == Some(v) && Sextet(v) != '='
  {
  }

  /** Three bytes as four sextets, and back. */
  lemma RegroupBits(a: nat, b: nat, c: nat)
    requires a < 256 && b < 256 && c < 256
    ensures a / 4 * 4 + (a % 4 * 16 + b / 16) / 16 == a
    ensures (a % 4 * 16 + b / 16) % 16 * 16 + (b % 16 * 4 + c / 64) / 4 == b
    ensures (b % 16 * 4 + c / 64) % 4 * 64 + c % 64 == c
  {
    assert (a % 4 * 16 + b / 16) / 16 == a % 4 && (a % 4 * 16 + b / 16) % 16 == b / 16;
    assert (b % 16 * 4 + c / 64) / 4 == b % 16 && (b % 16 * 4 + c / 64) % 4 == c / 64;
  }

  lemma DecodeQuantum(x: byte, y: byte, z: byte, rest: string)
    requires Decode(rest).Some?
    ensures Decode(Quantum(x, y, z) + rest) == Some([x, y, z] + Decode(rest).value)
  {
    hide Sextet, SextetValue;
    var a, b, c := x as nat, y as nat, z as nat;
    RegroupBits(a, b, c);
    SextetRoundTrip(a / 4);
    SextetRoundTrip(a % 4 * 16 + b / 16);
    SextetRoundTrip(b % 16 * 4 + c / 64);
    SextetRoundTrip(c % 64);
    var s := Quantum(x, y, z) + rest;
    assert s[4..] == rest;
  }

  lemma DecodePair(x: byte, y: byte)
    ensures Decode(Encode([x, y])) == Some([x, y])
  {
    var a, b := x as int, y as int;
    SextetRoundTrip(a / 4);
    SextetRoundTrip(a % 4 * 16 + b / 16);
    SextetRoundTrip(b % 16 * 4);
    assert (a % 4 * 16 + b / 16) / 16 == a % 4 && (a % 4 * 16 + b / 16) % 16 == b / 16;
  }

  lemma DecodeSingle(x: byte)
    ensures Decode(Encode([x])) == Some([x])
  {
    var a := x as int;
    SextetRoundTrip(a / 4);
    SextetRoundTrip(a % 4 * 16);
    assert a % 4 * 16 / 16 == a % 4;
  }

  /** Decoding undoes encoding, for every byte string. */
  lemma {:induction false} Base64RoundTrip(bytes: seq<byte>)
    ensures Decode(Encode(bytes)) == Some(bytes)
  {
    if |bytes| > 2 {
      Base64RoundTrip(bytes[3..]);
      DecodeQuantum(bytes[0], bytes[1], bytes[2], Encode(bytes[3..]));
      assert [bytes[0], bytes[1], bytes[2]] + bytes[3..] == bytes;
    } else if |bytes| == 2 {
      assert bytes == [bytes[0], bytes[1]];
      DecodePair(bytes[0], bytes[1]);
    } else if |bytes| == 1 {
      assert bytes == [bytes[0]];
      DecodeSingle(bytes[0]);
    }
  }

  ghost predicate InAlphabet(s: string) {
    forall i | 0 <= i < |s| :: SextetValue(s[i]).Some?
  }

  /** The text ends in `n` times '=', which fill up its last group of four. */
  ghost predicate Padded(s: string, n: nat) {
    && |s| > n && |s| % 4 == 0 && InAlphabet(s[..|s| - n])
    && forall i | |s| - n <= i < |s| :: s[i] == '='
  }

  /** Decoded are the texts of the alphabet, and those whose last group of four ends in one or two '='. */
  lemma {:induction false} DecodedTexts(s: string)
    ensures Decode(s).Some? <==> InAlphabet(s) || Padded(s, 1) || Padded(s, 2)
  {
    if |s| > 4 {
      var head, tail := s[..4], s[4..];
      DecodedTexts(tail);
      DecodedGroup(s);
      assert s == head + tail;
      hide Decode, InAlphabet, Padded;
      InBoth(head, tail);
      PaddedLater(head, tail, 1);
      PaddedLater(head, tail, 2);
      NoPadding(tail);
    } else {
      ShortTexts(s);
    }
  }

  lemma DecodedGroup(s: string)
    requires |s| > 4
    ensures Decode(s).Some? <==> InAlphabet(s[..4]) && Decode(s[4..]).Some?
  {
    hide SextetValue;
    FourSextets(s[..4]);
    hide InAlphabet;
    var a, b, c, d := SextetValue(s[0]), SextetValue(s[1]), SextetValue(s[2]), SextetValue(s[3]);
    assert InAlphabet(s[..4]) <==> a.Some? && b.Some? && c.Some? && d.Some?;
    if a.Some? && b.Some? && c.Some? && d.Some? {
      assert Decode(s).Some? <==> Decode(s[4..]).Some?;
    } else {
      assert Decode(s).None?;
    }
  }

  lemma FourSextets(s: string)
    requires |s| == 4
    ensures InAlphabet(s) <==>
            SextetValue(s[0]).Some? && SextetValue(s[1]).Some? && SextetValue(s[2]).Some? && SextetValue(s[3]).Some?
  {
    hide SextetValue;
  }

  lemma PaddedLater(head: string, tail: string, n: nat)
    requires |head| == 4 && 1 <= n <= 2
    ensures Padded(head + tail, n) <==> (InAlphabet(head) && Padded(tail, n)) || (|tail| <= n && Padded(head + tail, n))
    ensures |tail| <= n && tail != "" ==> !Padded(head + tail, n)
  {
    hide InAlphabet;
    var s := head + tail;
    if |tail| > n {
      assert s[..|s| - n] == head + tail[..|tail| - n];
      InBoth(head, tail[..|tail| - n]);
      assert forall i | |tail| - n <= i < |tail| :: tail[i] == s[i + 4];
    }
  }

  lemma NoPadding(s: string)
    ensures InAlphabet(s) ==> !Padded(s, 1) && !Padded(s, 2)
  {
    if InAlphabet(s) && s != "" { assert SextetValue(s[|s| - 1]).Some?; }
  }

  lemma InBoth(a: string, b: string)
    ensures InAlphabet(a + b) <==> InAlphabet(a) && InAlphabet(b)
  {
    assert forall i | 0 <= i < |a| :: (a + b)[i] == a[i];
    assert forall i | 0 <= i < |b| :: (a + b)[|a| + i] == b[i];
  }

  lemma ShortTexts(s: string)
    requires |s| <= 4
    ensures Decode(s).Some? <==> InAlphabet(s) || Padded(s, 1) || Padded(s, 2)
  {
    assert SextetValue('=') == None;
    hide SextetValue;
    if |s| == 4 {
      FourTexts(s);
    } else {
      hide Padded;
      assert !Padded(s, 1) && !Padded(s, 2) by { NoGroup(s); }
      hide InAlphabet;
      TinyTexts(s);
    }
  }

  lemma NoGroup(s: string)
    requires |s| < 4
    ensures !Padded(s, 1) && !Padded(s, 2)
  {
  }

  lemma TinyTexts(s: string)
    requires |s| < 4
    ensures Decode(s).Some? <==> InAlphabet(s)
  {
    hide SextetValue;
    assert InAlphabet(s) <==> (|s| > 0 ==> SextetValue(s[0]).Some?) && (|s| > 1 ==> SextetValue(s[1]).Some?)
                              && (|s| > 2 ==> SextetValue(s[2]).Some?);
    hide InAlphabet;
  }

  lemma FourTexts(s: string)
    requires |s| == 4 && SextetValue('=') == None
    ensures Decode(s).Some? <==> InAlphabet(s) || Padded(s, 1) || Padded(s, 2)
  {
    hide SextetValue;
    var a, b, c, d := SextetValue(s[0]), SextetValue(s[1]), SextetValue(s[2]), SextetValue(s[3]);
    FourSextets(s);
    assert Padded(s, 1) <==> a.Some? && b.Some? && c.Some? && s[3] == '=';
    assert Padded(s, 2) <==> a.Some? && b.Some? && s[2] == '=' && s[3] == '=';
    hide InAlphabet, Padded;
    assert Decode(s[4..]) == Some([]);
  }

  // ------------------------------------------------------------ object paths

  predicate IsPathChar(c: char) {
    'A' <= c <= 'Z' || 'a' <= c <= 'z' || '0' <= c <= '9' || c == '_'
  }

  /** Matches (C+(/C+)*)? of the source's pattern: `inside` once a C has been read. */
  predicate MatchSegments(s: string, inside: bool) {
    if s == "" then inside
    else if IsPathChar(s[0]) then MatchSegments(s[1..], true)
    else s[0] == '/' && inside && MatchSegments(s[1..], false)
  }

  predicate MatchPath(s: string) {
    s != "" && s[0] == '/' && (|s| == 1 || MatchSegments(s[1..], false))
  }

  /** The pattern's final '$' also matches before one line break that ends the text. */
  predicate IsObjectPath(s: string) {
    MatchPath(s) || (s != "" && s[|s| - 1] == '\n' && MatchPath(s[..|s| - 1]))
  }

  /** Section "Valid Object Paths" of the D-Bus Specification. */
  ghost predicate ValidObjectPath(s: string) {
    && s != "" && s[0] == '/'
    && (forall i | 0 <= i < |s| :: s[i] == '/' || IsPathChar(s[i]))
    && (forall i | 0 < i < |s| && s[i - 1] == '/' :: s[i] != '/')
    && (|s| > 1 ==> s[|s| - 1] != '/')
  }

  ghost predicate GoodSegments(s: string, inside: bool) {
    && (forall i | 0 <= i < |s| :: s[i] == '/' || IsPathChar(s[i]))
    && (forall i | 0 < i < |s| && s[i - 1] == '/' :: s[i] != '/')
    && (if s == "" then inside else s[|s| - 1] != '/' && (!inside ==> s[0] != '/'))
  }

  lemma {:induction false} SegmentsDecided(s: string, inside: bool)
    ensures MatchSegments(s, inside) <==> GoodSegments(s, inside)
  {
    if s != "" {
      var tail := s[1..];
      SegmentsDecided(tail, IsPathChar(s[0]));
      if GoodSegments(s, inside) {
        forall i | 0 < i < |tail| && tail[i - 1] == '/' ensures tail[i] != '/' {
          assert s[i] == '/' && s[i + 1] == tail[i];
        }
        if tail != "" { assert tail[|tail| - 1] == s[|s| - 1] && tail[0] == s[1]; }
      }
      if GoodSegments(tail, IsPathChar(s[0])) && (IsPathChar(s[0]) || (s[0] == '/' && inside)) {
        forall i | 0 < i < |s| && s[i - 1] == '/' ensures s[i] != '/' {
          if i > 1 { assert tail[i - 2] == '/' && tail[i - 1] == s[i]; } else { assert tail[0] == s[1]; }
        }
        forall i | 0 <= i < |s| ensures s[i] == '/' || IsPathChar(s[i]) {
          if i > 0 { assert tail[i - 1] == s[i]; }
        }
        if tail != "" { assert tail[|tail| - 1] == s[|s| - 1]; }
      }
    }
  }

  lemma MatchPathDecided(s: string)
    ensures MatchPath(s) <==> ValidObjectPath(s)
  {
    if s != "" && s[0] == '/' && |s| > 1 {
      var tail := s[1..];
      SegmentsDecided(tail, false);
      assert tail[|tail| - 1] == s[|s| - 1] && tail[0] == s[1];
      if ValidObjectPath(s) {
        forall i | 0 < i < |tail| && tail[i - 1] == '/' ensures tail[i] != '/' {
          assert s[i] == '/' && s[i + 1] == tail[i];
        }
      }
      if GoodSegments(tail, false) {
        forall i | 0 < i < |s| && s[i - 1] == '/' ensures s[i] != '/' {
          if i > 1 { assert tail[i - 2] == '/' && tail[i - 1] == s[i]; }
        }
        forall i | 0 <= i < |s| ensures s[i] == '/' || IsPathChar(s[i]) {
          if i > 0 { assert tail[i - 1] == s[i]; }
        }
      }
    }
  }

  /** An accepted text is a valid object path if and only if it does not end in a line break;
      every valid path is accepted, and the exception does occur. */
  lemma ObjectPathExact(s: string)
    ensures ValidObjectPath(s) ==> IsObjectPath(s)
    ensures IsObjectPath(s) ==> (ValidObjectPath(s) <==> s[|s| - 1] != '\n')
    ensures IsObjectPath("/\n") && !ValidObjectPath("/\n")
  {
    MatchPathDecided(s);
    if ValidObjectPath(s) { assert s[|s| - 1] == '/' || IsPathChar(s[|s| - 1]); }
    assert MatchPath("/") && "/\n"[..1] == "/";
    assert "/\n"[1] == '\n';
  }

  // ------------------------------------------------------------ doubles

  /** How Qt writes and reads a double; only used for map keys, which JSON keeps as text. */
  datatype DoubleText = DoubleText(show: real -> string, read: string -> Option<real>)
}
