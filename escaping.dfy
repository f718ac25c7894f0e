/**
 * The escaping applied to values written to a strings file: a line break in
 * a value becomes the two characters backslash and 'n'.
 */
module Escaping {

  function Count(s: string, c: char): nat
  {
    if s == [] then 0 else (if s[0] == c then 1 else 0) + Count(s[1..], c)
  }

  /** `encode_escaped_string`: `value.replace("\n", "\\n")`. */
  function Encode(v: string): string
  {
    if v == [] then [] else (if v[0] == '\n' then "\\n" else [v[0]]) + Encode(v[1..])
  }

  /** The encoded text has no line break and is one character longer per line break. */
  lemma {:induction false} EncodeShape(v: string)
    ensures '\n' !in Encode(v)
    ensures |Encode(v)| == |v| + Count(v, '\n')
  {
    if v != [] {
      EncodeShape(v[1..]);
    }
  }

  /** Besides the line breaks it replaces, encoding neither adds nor removes any character other than backslash and 'n'. */
  lemma {:induction false} EncodeKeepsOtherChars(v: string, c: char)
    requires c != '\n' && c != '\\' && c != 'n'
    ensures c in Encode(v) <==> c in v
  {
    if v != [] {
      EncodeKeepsOtherChars(v[1..], c);
      var head := if v[0] == '\n' then "\\n" else [v[0]];
      assert Encode(v) == head + Encode(v[1..]);
      assert v == [v[0]] + v[1..];
      assert c in head <==> c == v[0];
    }
  }

  /** Encoding works character by character: concatenation commutes with it. */
  lemma {:induction false} EncodeConcat(a: string, b: string)
    ensures Encode(a + b) == Encode(a) + Encode(b)
  {
    if a != [] {
      assert (a + b)[1..] == a[1..] + b;
      EncodeConcat(a[1..], b);
    } else {
      assert a + b == b;
    }
  }

  /** A line break becomes backslash-n; every other character is kept as it is. */
  lemma EncodeChar(c: char)
    ensures Encode([c]) == if c == '\n' then "\\n" else [c]
  {
    assert [c][1..] == [];
  }

  /**
   * A value holding a line break and a value holding a backslash followed by
   * 'n' encode alike, so no decoder can recover every value from its encoding.
   */
  lemma EncodeNotInjective()
    ensures Encode("\n") == Encode("\\n") && "\n" != "\\n"
  {
    assert "\n"[1..] == [];
    assert "\\n"[1..] == "n";
    assert "n"[1..] == [];
  }

  /**
   * Only the backslash-n case of the decoding the parser applies to values:
   * each backslash-n pair becomes a line break, everything else is kept.
   */
  function DecodeNewlines(s: string): string
  {
    if |s| >= 2 && s[0] == '\\' && s[1] == 'n' then "\n" + DecodeNewlines(s[2..])
    else if s == [] then []
    else [s[0]] + DecodeNewlines(s[1..])
  }

  /** Text without a backslash passes through decoding unchanged, whatever follows it. */
  lemma {:induction false} DecodePlainPrefix(a: string, b: string)
    requires '\\' !in a
    ensures DecodeNewlines(a + b) == a + DecodeNewlines(b)
  {
    if a != [] {
      var s := a + b;
      assert a[0] in a;
      assert s[0] == a[0] && s[1..] == a[1..] + b;
      assert DecodeNewlines(s) == [s[0]] + DecodeNewlines(s[1..]);
      DecodePlainPrefix(a[1..], b);
      assert a == [a[0]] + a[1..];
    } else {
      assert a + b == b;
    }
  }

  /** An escaped line break between two runs of plain text decodes to a real one. */
  lemma DecodeEscapedBreak(a: string, b: string)
    requires '\\' !in a && '\\' !in b
    ensures DecodeNewlines(a + "\\n" + b) == a + "\n" + b
  {
    var w := "\\n" + b;
    assert a + "\\n" + b == a + w;
    DecodePlainPrefix(a, w);
    DecodePlainText(b);
    DecodeBreakFirst(b);
    assert DecodeNewlines(a + w) == a + ("\n" + b);
    assert a + ("\n" + b) == a + "\n" + b;
  }

  lemma DecodePlainText(b: string)
    requires '\\' !in b
    ensures DecodeNewlines(b) == b
  {
    DecodePlainPrefix(b, []);
    assert b + [] == b;
  }

  lemma DecodeBreakFirst(b: string)
    ensures DecodeNewlines("\\n" + b) == "\n" + DecodeNewlines(b)
  {
    var w := "\\n" + b;
    assert w[0] == '\\' && w[1] == 'n' && w[2..] == b;
  }

  /** Values without a backslash survive encoding then decoding. */
  lemma {:induction false} DecodeEncode(v: string)
    requires '\\' !in v
    ensures DecodeNewlines(Encode(v)) == v
  {
    if v != [] {
      DecodeEncode(v[1..]);
      var rest := Encode(v[1..]);
      if v[0] == '\n' {
        assert Encode(v) == "\\n" + rest;
        assert (Encode(v))[2..] == rest;
      } else {
        assert Encode(v) == [v[0]] + rest;
        assert (Encode(v))[1..] == rest;
      }
    }
  }

  /** Escaped text without a raw line break survives decoding then encoding. */
  lemma {:induction false} EncodeDecode(s: string)
    requires '\n' !in s
    ensures Encode(DecodeNewlines(s)) == s
    decreases |s|
  {
    if |s| >= 2 && s[0] == '\\' && s[1] == 'n' {
      assert '\n' !in s[2..];
      EncodeDecode(s[2..]);
      var d := DecodeNewlines(s[2..]);
      assert ("\n" + d)[1..] == d;
      assert s == "\\n" + s[2..];
    } else if s != [] {
      assert '\n' !in s[1..];
      EncodeDecode(s[1..]);
      var d := DecodeNewlines(s[1..]);
      assert ([s[0]] + d)[1..] == d;
      assert s == [s[0]] + s[1..];
    }
  }
}
