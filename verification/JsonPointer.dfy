/** Decoding of JSON pointers, RFC 6901, into paths (pkg/types/path.go). */
module JsonPointer {
  import opened GoStrings

  // ---------- Splitting and integers ----------

  /** strings.Split by one character. */
  function Split(s: string, sep: char): (parts: seq<string>)
    ensures parts != []
  {
    if s == "" then [""]
    else
      var rest := Split(s[1..], sep);
      if s[0] == sep then [""] + rest else [s[..1] + rest[0]] + rest[1..]
  }

  function Join(parts: seq<string>, sep: char): string
    requires parts != []
  {
    if |parts| == 1 then parts[0] else parts[0] + [sep] + Join(parts[1..], sep)
  }

  predicate Digits(s: string) {
    s != "" && forall i :: 0 <= i < |s| ==> '0' <= s[i] <= '9'
  }

  function Number(s: string): nat
    requires forall i :: 0 <= i < |s| ==> '0' <= s[i] <= '9'
  {
    if s == "" then 0 else Number(s[..|s| - 1]) * 10 + (s[|s| - 1] as int - '0' as int)
  }

  /** strconv.Atoi succeeds: an optional sign, then digits, within 64 bits. */
  predicate IsInt(s: string) {
    var signed := s != "" && (s[0] == '-' || s[0] == '+');
    var digits := if signed then s[1..] else s;
    Digits(digits) && Number(digits) <= (if signed && s[0] == '-' then 0x8000_0000_0000_0000 else 0x7fff_ffff_ffff_ffff)
  }

  // ---------- Decoding ----------

  /** The two replacements of section 4 of RFC 6901, in the order it prescribes. */
  function Unescape(p: string): string {
    ReplaceAll(ReplaceAll(p, "~1", "/"), "~0", "~")
  }

  function Bracketed(p: string): string {
    if IsInt(p) then "[" + p + "]" else p
  }

  function DecodeToken(p: string): string {
    Bracketed(Unescape(p))
  }

  method Rfc6901ToPath(path: string) returns (decoded: seq<string>)
    ensures |decoded| == |Split(path, '/')|
    ensures forall i :: 0 <= i < |decoded| ==> decoded[i] == DecodeToken(Split(path, '/')[i])
  {
    var parts := Split(path, '/');
    decoded := [];
    for i := 0 to |parts|
      invariant |decoded| == i && forall k :: 0 <= k < i ==> decoded[k] == DecodeToken(parts[k])
    {
      var p := ReplaceAll(parts[i], "~1", "/");
      p := ReplaceAll(p, "~0", "~");
      if IsInt(p) {
        p := "[" + p + "]";
      }
      decoded := decoded + [p];
    }
  }

  // ---------- Escaping, section 3 of RFC 6901 ----------

  function Escape(t: string): string {
    if t == "" then ""
    else (if t[0] == '~' then "~0" else if t[0] == '/' then "~1" else t[..1]) + Escape(t[1..])
  }

  /** Only the tilde escaped: what the first replacement leaves. */
  function HalfEscaped(t: string): string {
    if t == "" then "" else (if t[0] == '~' then "~0" else t[..1]) + HalfEscaped(t[1..])
  }

  lemma {:induction false} FirstReplacement(t: string)
    ensures ReplaceAll(Escape(t), "~1", "/") == HalfEscaped(t)
  {
    if t != "" {
      var rest := Escape(t[1..]);
      FirstReplacement(t[1..]);
      if t[0] == '~' {
        var s := "~0" + rest;
        assert s[..2] == "~0" && s[1..] == ['0'] + rest;
        assert "~0"[1] != "~1"[1];
        assert ReplaceAll(s, "~1", "/") == ['~'] + ReplaceAll(['0'] + rest, "~1", "/");
        ReplaceMoves('0', rest, "~1", "/");
      } else if t[0] == '/' {
        ReplaceHits(rest, "~1", "/");
      } else {
        ReplaceMoves(t[0], rest, "~1", "/");
      }
    }
  }

  lemma {:induction false} SecondReplacement(t: string)
    ensures ReplaceAll(HalfEscaped(t), "~0", "~") == t
  {
    if t != "" {
      var rest := HalfEscaped(t[1..]);
      SecondReplacement(t[1..]);
      if t[0] == '~' {
        ReplaceHits(rest, "~0", "~");
      } else {
        ReplaceMoves(t[0], rest, "~0", "~");
      }
    }
  }

  /** The two replacements invert the escaping. */
  lemma UnescapeInvertsEscape(t: string)
    ensures Unescape(Escape(t)) == t
  {
    FirstReplacement(t);
    SecondReplacement(t);
  }

  /** Strings that escaping produces: no slash, and every tilde before a 0 or a 1. */
  predicate WellEscaped(s: string) {
    s == "" ||
    if s[0] == '~' then |s| > 1 && (s[1] == '0' || s[1] == '1') && WellEscaped(s[2..])
    else s[0] != '/' && WellEscaped(s[1..])
  }

  lemma {:induction false} EscapeIsWellEscaped(t: string)
    ensures WellEscaped(Escape(t)) && '/' !in Escape(t)
  {
    if t != "" {
      EscapeIsWellEscaped(t[1..]);
      var rest := Escape(t[1..]);
      if t[0] == '~' || t[0] == '/' {
        assert Escape(t)[2..] == rest;
      } else {
        assert Escape(t)[1..] == rest;
      }
    }
  }

  lemma {:induction false} WellEscapedHasSource(s: string) returns (t: string)
    requires WellEscaped(s)
    ensures Escape(t) == s
  {
    if s == "" {
      t := "";
    } else if s[0] == '~' {
      var rest := WellEscapedHasSource(s[2..]);
      t := (if s[1] == '0' then "~" else "/") + rest;
      assert t[1..] == rest && s == s[..2] + s[2..];
    } else {
      var rest := WellEscapedHasSource(s[1..]);
      t := s[..1] + rest;
      assert t[1..] == rest && t[..1] == s[..1] && s == s[..1] + s[1..];
    }
  }

  /** Escaping again gives back exactly the well-escaped strings: decoding loses nothing of those, and only those. */
  lemma EscapeInvertsUnescapeExactly(s: string)
    ensures Escape(Unescape(s)) == s <==> WellEscaped(s)
  {
    if WellEscaped(s) {
      var t := WellEscapedHasSource(s);
      UnescapeInvertsEscape(t);
    }
    EscapeIsWellEscaped(Unescape(s));
  }

  /** The two replacements the other way round. */
  function OtherOrder(p: string): string {
    ReplaceAll(ReplaceAll(p, "~0", "~"), "~1", "/")
  }

  /** Only the slash escaped: what the replacement of ~0 leaves. */
  function Slashed(t: string): string {
    if t == "" then "" else (if t[0] == '/' then "~1" else t[..1]) + Slashed(t[1..])
  }

  predicate HasTildeOne(t: string) {
    exists i :: 0 <= i < |t| - 1 && t[i] == '~' && t[i + 1] == '1'
  }

  lemma {:induction false} TildesFirst(t: string)
    ensures ReplaceAll(Escape(t), "~0", "~") == Slashed(t)
  {
    hide ReplaceAll;
    if t == "" {
      ReplaceNothing("~0", "~");
    } else {
      var rest := Escape(t[1..]);
      TildesFirst(t[1..]);
      if t[0] == '~' {
        ReplaceHits(rest, "~0", "~");
      } else if t[0] == '/' {
        ReplaceMoves('~', ['1'] + rest, "~0", "~");
        ReplaceMoves('1', rest, "~0", "~");
        assert "~1" + rest == ['~'] + (['1'] + rest);
      } else {
        ReplaceMoves(t[0], rest, "~0", "~");
        assert t[..1] == [t[0]];
      }
    }
  }

  lemma {:induction false} SlashesThen(t: string)
    ensures ReplaceAll(Slashed(t), "~1", "/") == ReplaceAll(t, "~1", "/")
  {
    hide ReplaceAll;
    if t != "" {
      assert t == [t[0]] + t[1..];
      if t[0] == '/' {
        SlashesThen(t[1..]);
        ReplaceHits(Slashed(t[1..]), "~1", "/");
        ReplaceMoves('/', t[1..], "~1", "/");
      } else if t[0] == '~' && |t| > 1 && t[1] == '1' {
        SlashesThen(t[2..]);
        assert t == "~1" + t[2..] && t[1..][1..] == t[2..];
        assert Slashed(t) == "~1" + Slashed(t[2..]);
        ReplaceHits(Slashed(t[2..]), "~1", "/");
        ReplaceHits(t[2..], "~1", "/");
      } else {
        SlashesThen(t[1..]);
        ReplaceMoves(t[0], t[1..], "~1", "/");
        ReplaceMoves(t[0], Slashed(t[1..]), "~1", "/");
      }
    }
  }

  lemma {:induction false} ReplacingTildeOne(t: string)
    ensures |ReplaceAll(t, "~1", "/")| <= |t|
    ensures ReplaceAll(t, "~1", "/") == t <==> !HasTildeOne(t)
    ensures HasTildeOne(t) ==> |ReplaceAll(t, "~1", "/")| < |t|
  {
    if |t| >= 2 {
      if t[..2] == "~1" {
        assert t[0] == t[..2][0] && t[1] == t[..2][1];
        ReplacingTildeOne(t[2..]);
      } else {
        ReplacingTildeOne(t[1..]);
        assert t == t[..1] + t[1..];
        if HasTildeOne(t) {
          var i :| 0 <= i < |t| - 1 && t[i] == '~' && t[i + 1] == '1';
          assert i > 0 by {
            assert t[..2][0] == t[0] && t[..2][1] == t[1];
          }
          assert t[1..][i - 1] == '~' && t[1..][i] == '1';
        }
        if HasTildeOne(t[1..]) {
          var i :| 0 <= i < |t[1..]| - 1 && t[1..][i] == '~' && t[1..][i + 1] == '1';
          assert t[i + 1] == '~' && t[i + 2] == '1';
        }
      }
    }
  }

  /** In the other order the replacements invert the escaping of exactly the tokens without ~1 in them. */
  lemma OtherOrderExactly(t: string)
    ensures OtherOrder(Escape(t)) == t <==> !HasTildeOne(t)
  {
    TildesFirst(t);
    SlashesThen(t);
    ReplacingTildeOne(t);
  }

  // ---------- Whole pointers ----------

  lemma {:induction false} SplitOfPlain(s: string, sep: char)
    requires sep !in s
    ensures Split(s, sep) == [s]
  {
    if s != "" {
      SplitOfPlain(s[1..], sep);
      assert s == s[..1] + s[1..];
    }
  }

  lemma {:induction false} SplitAtSep(s: string, sep: char, rest: string)
    requires sep !in s
    ensures Split(s + [sep] + rest, sep) == [s] + Split(rest, sep)
  {
    var full := s + [sep] + rest;
    if s == "" {
      assert full[1..] == rest;
    } else {
      SplitAtSep(s[1..], sep, rest);
      assert full[1..] == s[1..] + [sep] + rest && full[..1] == s[..1];
      assert s == s[..1] + s[1..];
    }
  }

  lemma {:induction false} SplitInvertsJoin(parts: seq<string>, sep: char)
    requires parts != [] && forall i :: 0 <= i < |parts| ==> sep !in parts[i]
    ensures Split(Join(parts, sep), sep) == parts
  {
    if |parts| == 1 {
      SplitOfPlain(parts[0], sep);
    } else {
      SplitInvertsJoin(parts[1..], sep);
      SplitAtSep(parts[0], sep, Join(parts[1..], sep));
    }
  }

  function Escaped(tokens: seq<string>): seq<string> {
    seq(|tokens|, i requires 0 <= i < |tokens| => Escape(tokens[i]))
  }

  /** Escape, join, decode: every token comes back, integers in brackets. */
  lemma RoundTrip(tokens: seq<string>)
    requires tokens != []
    ensures var parts := Split(Join(Escaped(tokens), '/'), '/');
            |parts| == |tokens| && forall i :: 0 <= i < |tokens| ==> DecodeToken(parts[i]) == Bracketed(tokens[i])
  {
    forall i | 0 <= i < |tokens|
      ensures '/' !in Escaped(tokens)[i] && Unescape(Escaped(tokens)[i]) == tokens[i]
    {
      EscapeIsWellEscaped(tokens[i]);
      UnescapeInvertsEscape(tokens[i]);
    }
    SplitInvertsJoin(Escaped(tokens), '/');
  }

  /** A pointer that starts with a slash, as RFC 6901 writes them, decodes to an empty token and then the tokens. */
  lemma LeadingSlashRoundTrip(tokens: seq<string>)
    requires tokens != []
    ensures var parts := Split("/" + Join(Escaped(tokens), '/'), '/');
            && |parts| == |tokens| + 1 && DecodeToken(parts[0]) == ""
            && forall i :: 0 <= i < |tokens| ==> DecodeToken(parts[i + 1]) == Bracketed(tokens[i])
  {
    RoundTrip(tokens);
    SplitAtSep("", '/', Join(Escaped(tokens), '/'));
    assert "" + "/" + Join(Escaped(tokens), '/') == "/" + Join(Escaped(tokens), '/');
  }
}
