// HTML escaping and content cleaning (lib/sanitize.ts). Every step is a
// global replacement on a string; the regular expressions that strip markup
// are one function parameter, `strip`, and everything after them is exact.
module Sanitize {
  import opened Wrappers
  import Text
  import JsValue

  type Value = JsValue.Value

  /** The markup-stripping replacements: the input and whether HTML is allowed. */
  type Stripper = (string, bool) -> string

  // ---------------------------------------------------------------- global replacement

  /** `s.replace(/pat/g, rep)` for a literal pattern: matches are taken left to right without overlap. */
  function ReplaceAll(s: string, pat: string, rep: string): string
    requires |pat| > 0
    decreases |s|
  {
    if |s| == 0 then ""
    else if Text.StartsWith(s, pat) then rep + ReplaceAll(s[|pat|..], pat, rep)
    else [s[0]] + ReplaceAll(s[1..], pat, rep)
  }

  /** A piece without the pattern's first character is copied as it is. */
  lemma {:induction false} PassThrough(t: string, rest: string, pat: string, rep: string)
    requires |pat| > 0 && pat[0] !in t
    ensures ReplaceAll(t + rest, pat, rep) == t + ReplaceAll(rest, pat, rep)
    decreases |t|
  {
    if |t| > 0 {
      var s := t + rest;
      assert s[0] == t[0] != pat[0];
      assert s[1..] == t[1..] + rest;
      PassThrough(t[1..], rest, pat, rep);
      assert [t[0]] + (t[1..] + ReplaceAll(rest, pat, rep)) == t + ReplaceAll(rest, pat, rep);
    } else {
      assert t + rest == rest;
    }
  }

  /** A match in front is replaced. */
  lemma Hit(rest: string, pat: string, rep: string)
    requires |pat| > 0
    ensures ReplaceAll(pat + rest, pat, rep) == rep + ReplaceAll(rest, pat, rep)
  {
    var s := pat + rest;
    assert s[..|pat|] == pat;
    assert s[|pat|..] == rest;
  }

  /** A piece that differs from the pattern at some index and has the pattern's first character only in front is copied. */
  lemma Miss(e: string, rest: string, pat: string, rep: string, k: nat)
    requires |pat| > 0 && |e| > 0 && pat[0] !in e[1..]
    requires k < |e| && k < |pat| && e[k] != pat[k]
    ensures ReplaceAll(e + rest, pat, rep) == e + ReplaceAll(rest, pat, rep)
  {
    var s := e + rest;
    assert s[k] == e[k];
    assert !Text.StartsWith(s, pat) by {
      if |pat| <= |s| {
        assert s[..|pat|][k] == s[k];
      }
    }
    assert s[1..] == e[1..] + rest;
    PassThrough(e[1..], rest, pat, rep);
    assert [e[0]] + (e[1..] + ReplaceAll(rest, pat, rep)) == e + ReplaceAll(rest, pat, rep);
  }

  // ---------------------------------------------------------------- HTML escaping

  /** The characters the re-encoding turns into entities. */
  predicate IsSpecial(c: char)
  {
    c == '&' || c == '<' || c == '>' || c == '"' || c == '\'' || c == '/'
  }

  /** The characters that must not appear raw in escaped output. */
  predicate IsRaw(c: char)
  {
    c == '<' || c == '>' || c == '"' || c == '\'' || c == '/'
  }

  predicate NoRaw(s: string)
  {
    forall i :: 0 <= i < |s| ==> !IsRaw(s[i])
  }

  /** The entity each special character is written as. */
  function Escape(c: char): (r: string)
    ensures IsSpecial(c) ==> |r| >= 4 && r[0] == '&' && r[|r| - 1] == ';' && '&' !in r[1..]
    ensures !IsSpecial(c) ==> r == [c]
    ensures forall i :: 0 <= i < |r| ==> !IsRaw(r[i])
  {
    if c == '&' then "&amp;"
    else if c == '<' then "&lt;"
    else if c == '>' then "&gt;"
    else if c == '"' then "&quot;"
    else if c == '\'' then "&#x27;"
    else if c == '/' then "&#x2F;"
    else [c]
  }

  /** An index at which two different entities disagree. */
  function Mismatch(c: char, d: char): nat
  {
    if (c == '\'' && d == '/') || (c == '/' && d == '\'') then 4 else 1
  }

  lemma EntitiesDisagree(c: char, d: char)
    requires IsSpecial(c) && IsSpecial(d) && c != d
    ensures Mismatch(c, d) < |Escape(c)| && Mismatch(c, d) < |Escape(d)|
    ensures Escape(c)[Mismatch(c, d)] != Escape(d)[Mismatch(c, d)]
  {
  }

  /** The text with the characters in `enc` written as entities and all others as they are. */
  function Staged(enc: set<char>, s: string): string
  {
    if |s| == 0 then ""
    else (if s[0] in enc then Escape(s[0]) else [s[0]]) + Staged(enc, s[1..])
  }

  const Specials: set<char> := {'&', '<', '>', '"', '\'', '/'}

  /** The HTML-escaped text: every special character as its entity. */
  function Escaped(s: string): string
  {
    Staged(Specials, s)
  }

  lemma {:induction false} StagedNone(s: string)
    ensures Staged({}, s) == s
  {
    if |s| > 0 {
      StagedNone(s[1..]);
      assert s == [s[0]] + s[1..];
    }
  }

  lemma {:induction false} StagedAppend(enc: set<char>, a: string, b: string)
    ensures Staged(enc, a + b) == Staged(enc, a) + Staged(enc, b)
  {
    if |a| == 0 {
      assert a + b == b;
    } else {
      assert (a + b)[0] == a[0];
      assert (a + b)[1..] == a[1..] + b;
      StagedAppend(enc, a[1..], b);
    }
  }

  /** One more replacement encodes one more special character, provided no earlier entity contains it. */
  lemma {:induction false} EncodeStep(enc: set<char>, c: char, s: string)
    requires IsSpecial(c) && c !in enc
    requires forall d :: d in enc ==> c !in Escape(d)
    ensures ReplaceAll(Staged(enc, s), [c], Escape(c)) == Staged(enc + {c}, s)
  {
    if |s| > 0 {
      var rest := Staged(enc, s[1..]);
      EncodeStep(enc, c, s[1..]);
      if s[0] == c {
        Hit(rest, [c], Escape(c));
      } else {
        var piece := if s[0] in enc then Escape(s[0]) else [s[0]];
        assert c !in piece;
        PassThrough(piece, rest, [c], Escape(c));
      }
    }
  }

  /** One decoding replacement turns one character's entities back into the character. */
  lemma {:induction false} DecodeStep(enc: set<char>, c: char, s: string)
    requires forall d :: d in enc ==> IsSpecial(d)
    requires c in enc && '&' in enc
    ensures ReplaceAll(Staged(enc, s), Escape(c), [c]) == Staged(enc - {c}, s)
  {
    if |s| > 0 {
      var rest := Staged(enc, s[1..]);
      var pat := Escape(c);
      DecodeStep(enc, c, s[1..]);
      if s[0] == c {
        Hit(rest, pat, [c]);
      } else if s[0] in enc {
        EntitiesDisagree(s[0], c);
        Miss(Escape(s[0]), rest, pat, [c], Mismatch(s[0], c));
      } else {
        assert s[0] != '&';
        PassThrough([s[0]], rest, pat, [c]);
      }
    }
  }

  /** The re-encoding of lines 81-87, as written: six global replacements in order. */
  function Encode(s: string): string
  {
    var a := ReplaceAll(s, "&", "&amp;");
    var b := ReplaceAll(a, "<", "&lt;");
    var c := ReplaceAll(b, ">", "&gt;");
    var d := ReplaceAll(c, "\"", "&quot;");
    var e := ReplaceAll(d, "'", "&#x27;");
    ReplaceAll(e, "/", "&#x2F;")
  }

  /** The entity decoding of lines 73-79, as written: `&amp;` last. */
  function Decode(s: string): string
  {
    var a := ReplaceAll(s, "&lt;", "<");
    var b := ReplaceAll(a, "&gt;", ">");
    var c := ReplaceAll(b, "&quot;", "\"");
    var d := ReplaceAll(c, "&#x27;", "'");
    var e := ReplaceAll(d, "&#x2F;", "/");
    ReplaceAll(e, "&amp;", "&")
  }

  /** The first three encoding replacements. */
  lemma EncodeFirstHalf(s: string)
    ensures ReplaceAll(ReplaceAll(ReplaceAll(s, "&", "&amp;"), "<", "&lt;"), ">", "&gt;") == Staged({'&', '<', '>'}, s)
  {
    var e0: set<char> := {};
    var e1 := e0 + {'&'};
    var e2 := e1 + {'<'};
    StagedNone(s);
    EncodeStep(e0, '&', s);
    EncodeStep(e1, '<', s);
    EncodeStep(e2, '>', s);
    assert e2 + {'>'} == {'&', '<', '>'};
  }

  /** The last three encoding replacements, on text whose `&`, `<` and `>` are already entities. */
  lemma EncodeSecondHalf(s: string)
    ensures ReplaceAll(ReplaceAll(ReplaceAll(Staged({'&', '<', '>'}, s), "\"", "&quot;"), "'", "&#x27;"), "/", "&#x2F;")
            == Escaped(s)
  {
    var e3: set<char> := {'&', '<', '>'};
    var e4 := e3 + {'"'};
    var e5 := e4 + {'\''};
    EncodeStep(e3, '"', s);
    EncodeStep(e4, '\'', s);
    EncodeStep(e5, '/', s);
    assert e5 + {'/'} == Specials;
  }

  /** The chain of replacements escapes each special character on its own: none of them re-escapes another's entity. */
  lemma EncodeIsEscaped(s: string)
    ensures Encode(s) == Escaped(s)
  {
    EncodeFirstHalf(s);
    EncodeSecondHalf(s);
  }

  /** Decoding escaped text gives the text back. */
  lemma DecodeEscaped(s: string)
    ensures Decode(Escaped(s)) == s
  {
    var e0 := Specials;
    var e1 := e0 - {'<'};
    var e2 := e1 - {'>'};
    var e3 := e2 - {'"'};
    var e4 := e3 - {'\''};
    var e5 := e4 - {'/'};
    DecodeStep(e0, '<', s);
    DecodeStep(e1, '>', s);
    DecodeStep(e2, '"', s);
    DecodeStep(e3, '\'', s);
    DecodeStep(e4, '/', s);
    DecodeStep(e5, '&', s);
    assert e5 - {'&'} == {};
    StagedNone(s);
  }

  /** The decode step before the re-encoding prevents double encoding: encoded text passes through unchanged. */
  lemma NoDoubleEncoding(s: string)
    ensures Encode(Decode(Encode(s))) == Encode(s)
  {
    EncodeIsEscaped(s);
    DecodeEscaped(s);
  }

  lemma {:induction false} EscapedNoRaw(s: string)
    ensures NoRaw(Escaped(s))
  {
    if |s| > 0 {
      EscapedNoRaw(s[1..]);
      var piece := Escape(s[0]);
      var t := Escaped(s);
      assert t == piece + Escaped(s[1..]);
      forall i | 0 <= i < |t| ensures !IsRaw(t[i]) {
        if i >= |piece| {
          assert t[i] == Escaped(s[1..])[i - |piece|];
        }
      }
    }
  }

  /** Text without special characters escapes to itself. */
  lemma {:induction false} EscapedPlain(s: string)
    requires forall i :: 0 <= i < |s| ==> !IsSpecial(s[i])
    ensures Escaped(s) == s
  {
    if |s| > 0 {
      EscapedPlain(s[1..]);
      assert s == [s[0]] + s[1..];
    }
  }

  /** Escaping keeps the first and last character's white-space status. */
  lemma EscapedEnds(s: string)
    requires |s| > 0 && !Text.IsSpace(s[0]) && !Text.IsSpace(s[|s| - 1])
    ensures |Escaped(s)| > 0 && !Text.IsSpace(Escaped(s)[0]) && !Text.IsSpace(Escaped(s)[|Escaped(s)| - 1])
  {
    var init := s[..|s| - 1];
    var last := s[|s| - 1];
    assert s == init + [last];
    StagedAppend(Specials, init, [last]);
    assert Staged(Specials, [last]) == Escape(last);
  }

  /** White space around a piece escapes to itself. */
  lemma EscapedAround(pre: string, core: string, post: string)
    requires forall i :: 0 <= i < |pre| ==> Text.IsSpace(pre[i])
    requires forall i :: 0 <= i < |post| ==> Text.IsSpace(post[i])
    ensures Escaped(pre + core + post) == pre + Escaped(core) + post
  {
    EscapedPlain(pre);
    EscapedPlain(post);
    StagedAppend(Specials, pre + core, post);
    StagedAppend(Specials, pre, core);
  }

  lemma TrimEscapedAround(pre: string, core: string, post: string)
    requires forall i :: 0 <= i < |pre| ==> Text.IsSpace(pre[i])
    requires forall i :: 0 <= i < |post| ==> Text.IsSpace(post[i])
    requires |core| > 0 && !Text.IsSpace(core[0]) && !Text.IsSpace(core[|core| - 1])
    ensures Text.Trim(Escaped(pre + core + post)) == Escaped(core)
  {
    EscapedAround(pre, core, post);
    EscapedEnds(core);
    Text.TrimAround(pre, Escaped(core), post);
  }

  /** Trimming commutes with escaping, since white space is never special. */
  lemma TrimEscaped(s: string)
    ensures Text.Trim(Escaped(s)) == Escaped(Text.Trim(s))
  {
    Text.TrimIsInnerPiece(s);
    var off := Text.TrimOffset(s);
    var core := Text.Trim(s);
    if |core| > 0 {
      var pre := s[..off];
      var post := s[off + |core|..];
      assert s == pre + core + post;
      TrimEscapedAround(pre, core, post);
    } else {
      assert forall i :: 0 <= i < |s| ==> Text.IsSpace(s[i]);
      EscapedPlain(s);
      assert Escaped(core) == "";
    }
  }

  // ---------------------------------------------------------------- sanitizeHtml

  datatype Options = Options(allowHtml: bool, maxLength: Option<int>)

  /** The length limit: a missing or zero `maxLength` is no limit, and `substring` clamps a negative one to 0. */
  function Limit(t: string, maxLength: Option<int>): (r: string)
    ensures Text.StartsWith(t, r)
    ensures maxLength.Some? && maxLength.value > 0 ==> |r| <= maxLength.value
    ensures maxLength.Some? && maxLength.value < 0 ==> r == ""
    ensures (maxLength.None? || maxLength.value == 0 || |t| <= maxLength.value) ==> r == t
  {
    if maxLength.Some? && maxLength.value != 0 && |t| > maxLength.value then
      t[..if maxLength.value < 0 then 0 else maxLength.value]
    else t
  }

  /** What the stripped input shows once its entities are decoded, trimmed. */
  function Displayed(input: string, allowHtml: bool, strip: Stripper): string
  {
    Text.Trim(Decode(strip(input, allowHtml)))
  }

  /**
   * `sanitizeHtml`: strip markup, decode entities, re-encode, trim, cut. The
   * output never holds a raw `<`, `>`, `"`, `'` or `/`, respects a positive
   * `maxLength`, and is a prefix of the escaped text the stripped input shows.
   */
  function SanitizeHtml(input: string, options: Options, strip: Stripper): (r: string)
    ensures input == "" ==> r == ""
    ensures NoRaw(r)
    ensures options.maxLength.Some? && options.maxLength.value > 0 ==> |r| <= options.maxLength.value
    ensures input != "" && options.maxLength.Some? && options.maxLength.value < 0 ==> r == ""
    ensures input != "" ==> Text.StartsWith(Escaped(Displayed(input, options.allowHtml, strip)), r)
    ensures input != "" && (options.maxLength.None? || options.maxLength.value == 0
                            || |Escaped(Displayed(input, options.allowHtml, strip))| <= options.maxLength.value)
            ==> r == Escaped(Displayed(input, options.allowHtml, strip))
  {
    if input == "" then ""
    else
      var decoded := Decode(strip(input, options.allowHtml));
      var encoded := Encode(decoded);
      EncodeIsEscaped(decoded);
      TrimEscaped(decoded);
      var trimmed := Text.Trim(encoded);
      var r := Limit(trimmed, options.maxLength);
      EscapedNoRaw(Text.Trim(decoded));
      assert forall i :: 0 <= i < |r| ==> r[i] == trimmed[i];
      r
  }

  /** When nothing is cut, decoding the output shows exactly the text the stripped input shows. */
  lemma SanitizeHtmlShowsText(input: string, options: Options, strip: Stripper)
    requires input != ""
    requires options.maxLength.None? || options.maxLength.value == 0
    ensures Decode(SanitizeHtml(input, options, strip)) == Displayed(input, options.allowHtml, strip)
  {
    DecodeEscaped(Displayed(input, options.allowHtml, strip));
  }

  // ---------------------------------------------------------------- character classes and removal

  /** Every character of `s` has property `p`. */
  predicate All(s: string, p: char -> bool)
  {
    forall i :: 0 <= i < |s| ==> p(s[i])
  }

  predicate NotRaw(c: char) { !IsRaw(c) }

  lemma NoRawAll(s: string)
    ensures NoRaw(s) <==> All(s, NotRaw)
  {
  }

  /** `[\x00-\x08\x0B\x0C\x0E-\x1F\x7F]`. */
  predicate IsMessageControl(c: char)
  {
    var n := c as int;
    n <= 0x08 || n == 0x0B || n == 0x0C || (0x0E <= n <= 0x1F) || n == 0x7F
  }

  predicate NotMessageControl(c: char) { !IsMessageControl(c) }

  /** `[\.\/\\]`. */
  predicate IsPathChar(c: char) { c == '.' || c == '/' || c == '\\' }

  /** `[<>:"|?*]`. */
  predicate IsReservedChar(c: char)
  {
    c == '<' || c == '>' || c == ':' || c == '"' || c == '|' || c == '?' || c == '*'
  }

  /** `[\x00-\x1f\x80-\x9f]`. */
  predicate IsFileControl(c: char)
  {
    var n := c as int;
    n <= 0x1F || (0x80 <= n <= 0x9F)
  }

  /** A character none of the three file-name removals touches. */
  predicate IsFileNameChar(c: char)
  {
    !IsPathChar(c) && !IsReservedChar(c) && !IsFileControl(c)
  }

  /** `s.replace(/[class]/g, '')`: removes every character of the class and keeps the others in order. */
  function Remove(s: string, drop: char -> bool): (r: string)
    ensures |r| <= |s|
    ensures forall i :: 0 <= i < |r| ==> !drop(r[i])
    ensures (forall i :: 0 <= i < |s| ==> !drop(s[i])) ==> r == s
  {
    if |s| == 0 then ""
    else
      var rest := Remove(s[1..], drop);
      if drop(s[0]) then rest
      else
        assert s == [s[0]] + s[1..];
        [s[0]] + rest
  }

  /** Removal keeps any property every character had. */
  lemma {:induction false} RemoveKeeps(s: string, drop: char -> bool, p: char -> bool)
    requires All(s, p)
    ensures All(Remove(s, drop), p)
  {
    if |s| > 0 {
      assert All(s[1..], p) by {
        assert forall i :: 0 <= i < |s| - 1 ==> s[1..][i] == s[i + 1];
      }
      RemoveKeeps(s[1..], drop, p);
    }
  }

  /** `s.replace(/\s+/g, ' ')`: each run of white space becomes one space. */
  function CollapseSpace(s: string): (r: string)
    ensures |r| <= |s|
    ensures |s| > 0 ==> |r| > 0 && (Text.IsSpace(s[0]) <==> Text.IsSpace(r[0]))
    decreases |s|
  {
    if |s| == 0 then ""
    else if Text.IsSpace(s[0]) then
      var t := Text.TrimStart(s);
      assert |t| > 0 ==> t[0] == s[|s| - |t|];
      " " + CollapseSpace(t)
    else
      [s[0]] + CollapseSpace(s[1..])
  }

  /** The collapsed text keeps any property every character had, if a space has it too. */
  lemma {:induction false} CollapseKeeps(s: string, p: char -> bool)
    requires All(s, p) && p(' ')
    ensures All(CollapseSpace(s), p)
    decreases |s|
  {
    if |s| > 0 {
      var space := Text.IsSpace(s[0]);
      var t := if space then Text.TrimStart(s) else s[1..];
      AllSuffix(s, |s| - |t|, p);
      CollapseKeeps(t, p);
      var head := if space then ' ' else s[0];
      assert CollapseSpace(s) == [head] + CollapseSpace(t);
      AllCons(head, CollapseSpace(t), p);
    }
  }

  lemma AllSuffix(s: string, k: nat, p: char -> bool)
    requires k <= |s| && All(s, p)
    ensures All(s[k..], p)
  {
    assert forall i :: 0 <= i < |s| - k ==> s[k..][i] == s[k + i];
  }

  lemma AllCons(c: char, s: string, p: char -> bool)
    requires p(c) && All(s, p)
    ensures All([c] + s, p)
  {
    assert forall i :: 0 < i <= |s| ==> ([c] + s)[i] == s[i - 1];
  }

  /** The only white space is single spaces. */
  predicate SingleSpaced(r: string)
  {
    forall i :: 0 <= i < |r| && Text.IsSpace(r[i]) ==> r[i] == ' ' && (i + 1 < |r| ==> !Text.IsSpace(r[i + 1]))
  }

  lemma SingleSpacedCons(head: char, rest: string)
    requires SingleSpaced(rest)
    requires Text.IsSpace(head) ==> head == ' ' && (|rest| > 0 ==> !Text.IsSpace(rest[0]))
    ensures SingleSpaced([head] + rest)
  {
    var r := [head] + rest;
    forall i | 0 <= i < |r| && Text.IsSpace(r[i])
      ensures r[i] == ' ' && (i + 1 < |r| ==> !Text.IsSpace(r[i + 1]))
    {
      if i > 0 {
        assert r[i] == rest[i - 1];
        assert i + 1 < |r| ==> r[i + 1] == rest[i];
      }
    }
  }

  /** After collapsing, the only white space is single spaces. */
  lemma {:induction false} CollapseSpaceRuns(s: string)
    ensures SingleSpaced(CollapseSpace(s))
    decreases |s|
  {
    if |s| > 0 {
      var space := Text.IsSpace(s[0]);
      var t := if space then Text.TrimStart(s) else s[1..];
      var head := if space then ' ' else s[0];
      CollapseSpaceRuns(t);
      assert space && |t| > 0 ==> !Text.IsSpace(t[0]);
      var rest := CollapseSpace(t);
      SingleSpacedCons(head, rest);
      assert CollapseSpace(s) == [head] + rest;
    }
  }

  /** Trimming keeps any property every character had. */
  lemma TrimKeeps(s: string, p: char -> bool)
    requires All(s, p)
    ensures All(Text.Trim(s), p)
    ensures |Text.Trim(s)| <= |s|
  {
    Text.TrimIsInnerPiece(s);
    var off := Text.TrimOffset(s);
    var t := Text.Trim(s);
    assert forall i :: 0 <= i < |t| ==> t[i] == s[off + i];
  }

  // ---------------------------------------------------------------- sanitizeMessage

  /** What `sanitizeMessage` promises about its output. */
  predicate IsCleanMessage(s: string)
  {
    |s| <= 4000 && Text.Trim(s) == s && All(s, NotRaw) && All(s, NotMessageControl)
  }

  /** `sanitizeMessage`: HTML-sanitise with tags stripped and a 4000 cut, collapse white space, drop control characters, trim. */
  function SanitizeMessage(content: string, strip: Stripper): (r: string)
    ensures content == "" ==> r == ""
    ensures IsCleanMessage(r)
  {
    if content == "" then ""
    else
      var html := SanitizeHtml(content, Options(false, Some(4000)), strip);
      NoRawAll(html);
      var collapsed := CollapseSpace(html);
      CollapseKeeps(html, NotRaw);
      var kept := Remove(collapsed, IsMessageControl);
      RemoveKeeps(collapsed, IsMessageControl, NotRaw);
      assert All(kept, NotMessageControl);
      TrimKeeps(kept, NotRaw);
      TrimKeeps(kept, NotMessageControl);
      Text.TrimIdempotent(kept);
      Text.Trim(kept)
  }

  // ---------------------------------------------------------------- sanitizeFilename

  /** What `sanitizeFilename` promises about its output. */
  predicate IsCleanFilename(s: string)
  {
    |s| <= 255 && Text.Trim(s) == s && All(s, IsFileNameChar)
  }

  /** The three removals of `sanitizeFilename`, in order. */
  function RemoveUnsafe(filename: string): (r: string)
    ensures All(r, IsFileNameChar)
    ensures |r| <= |filename|
    ensures All(filename, IsFileNameChar) ==> r == filename
  {
    var a := Remove(filename, IsPathChar);
    var b := Remove(a, IsReservedChar);
    RemoveKeeps(a, IsReservedChar, NotPathChar);
    var c := Remove(b, IsFileControl);
    RemoveKeeps(b, IsFileControl, NotPathChar);
    RemoveKeeps(b, IsFileControl, NotReservedChar);
    assert forall i :: 0 <= i < |c| ==> NotPathChar(c[i]) && NotReservedChar(c[i]) && !IsFileControl(c[i]);
    c
  }

  predicate NotPathChar(c: char) { !IsPathChar(c) }
  predicate NotReservedChar(c: char) { !IsReservedChar(c) }

  /** `sanitizeFilename`: three removals, a cut at 255 characters, trim. */
  function SanitizeFilename(filename: string): (r: string)
    ensures filename == "" ==> r == ""
    ensures IsCleanFilename(r)
  {
    if filename == "" then ""
    else
      var c := RemoveUnsafe(filename);
      var d := if |c| > 255 then c[..255] else c;
      assert All(d, IsFileNameChar);
      TrimKeeps(d, IsFileNameChar);
      Text.TrimIdempotent(d);
      Text.Trim(d)
  }

  /** A name that is already clean is kept as it is. */
  lemma CleanFilenameKept(filename: string)
    requires IsCleanFilename(filename)
    ensures SanitizeFilename(filename) == filename
  {
  }

  /** Sanitising a file name twice changes nothing more. */
  lemma SanitizeFilenameIdempotent(filename: string)
    ensures SanitizeFilename(SanitizeFilename(filename)) == SanitizeFilename(filename)
  {
    CleanFilenameKept(SanitizeFilename(filename));
  }

  // ---------------------------------------------------------------- sanitizeObject

  /** `value.map(...)`: a string element is sanitised, any other element kept. */
  function SanitizedItem(item: Value, strip: Stripper): Value
  {
    if item.Str? then JsValue.Str(SanitizeMessage(item.s, strip)) else item
  }

  /** The value `sanitizeObject` stores for one entry. */
  function Sanitized(v: Value, strip: Stripper): Value
    decreases v, 1
  {
    match v
    case Str(s) => JsValue.Str(SanitizeMessage(s, strip))
    case Arr(items) => JsValue.Arr(seq(|items|, i requires 0 <= i < |items| => SanitizedItem(items[i], strip)))
    case Obj(_) => JsValue.Obj(SanitizedEntries(v, 0, [], strip))
    case _ => v
  }

  /** The entry loop of `sanitizeObject` from entry `i` on, with `acc` filled so far. */
  function SanitizedEntries(owner: Value, i: nat, acc: seq<JsValue.Field>, strip: Stripper): seq<JsValue.Field>
    requires owner.Obj? && i <= |owner.fields|
    decreases owner, 0, |owner.fields| - i
  {
    if i == |owner.fields| then acc
    else
      var f := owner.fields[i];
      SanitizedEntries(owner, i + 1, JsValue.Assign(acc, f.key, Sanitized(f.value, strip)), strip)
  }

  /** `sanitizeObject`, looping over the entries and filling a fresh object. */
  method SanitizeObject(fields: seq<JsValue.Field>, strip: Stripper) returns (r: seq<JsValue.Field>)
    ensures r == Sanitized(JsValue.Obj(fields), strip).fields
    decreases JsValue.Obj(fields)
  {
    ghost var owner := JsValue.Obj(fields);
    var sanitized: seq<JsValue.Field> := [];
    var i := 0;
    while i < |fields|
      invariant 0 <= i <= |fields|
      invariant SanitizedEntries(owner, 0, [], strip) == SanitizedEntries(owner, i, sanitized, strip)
    {
      var key := fields[i].key;
      var value := fields[i].value;
      var v: Value;
      if value.Str? {
        v := JsValue.Str(SanitizeMessage(value.s, strip));
      } else if value.Arr? {
        v := JsValue.Arr(seq(|value.items|, j requires 0 <= j < |value.items| => SanitizedItem(value.items[j], strip)));
      } else if value.Obj? {
        var inner := SanitizeObject(value.fields, strip);
        v := JsValue.Obj(inner);
      } else {
        v := value;
      }
      assert v == Sanitized(value, strip);
      assert SanitizedEntries(owner, i, sanitized, strip)
        == SanitizedEntries(owner, i + 1, JsValue.Assign(sanitized, key, v), strip);
      sanitized := JsValue.Assign(sanitized, key, v);
      i := i + 1;
    }
    return sanitized;
  }

  predicate UniqueKeys(fields: seq<JsValue.Field>)
  {
    forall i, j :: 0 <= i < j < |fields| ==> fields[i].key != fields[j].key
  }

  /** The loop adds exactly the keys of the remaining entries, except `__proto__`, which the setter takes. */
  lemma {:induction false} SanitizedEntriesKeys(owner: Value, i: nat, acc: seq<JsValue.Field>, strip: Stripper)
    requires owner.Obj? && i <= |owner.fields|
    ensures forall k :: JsValue.HasKey(SanitizedEntries(owner, i, acc, strip), k)
                        <==> JsValue.HasKey(acc, k) || (k != JsValue.ProtoKey && JsValue.HasKey(owner.fields[i..], k))
    decreases |owner.fields| - i
  {
    var fs := owner.fields;
    if i < |fs| {
      var f := fs[i];
      var next := JsValue.Assign(acc, f.key, Sanitized(f.value, strip));
      JsValue.AssignFacts(acc, f.key, Sanitized(f.value, strip));
      SanitizedEntriesKeys(owner, i + 1, next, strip);
      assert fs[i..] == [f] + fs[i + 1..];
      forall k ensures JsValue.HasKey(fs[i..], k) <==> f.key == k || JsValue.HasKey(fs[i + 1..], k) {
        JsValue.HasKeyCons(f, fs[i + 1..], k);
      }
    } else {
      forall k ensures !JsValue.HasKey(fs[i..], k) {
        assert |fs[i..]| == 0;
      }
    }
  }

  /** With distinct keys, each remaining key but `__proto__` reads its own entry's sanitised value. */
  lemma {:induction false} SanitizedEntriesLookup(owner: Value, i: nat, acc: seq<JsValue.Field>, strip: Stripper)
    requires owner.Obj? && i <= |owner.fields| && UniqueKeys(owner.fields)
    ensures forall k :: JsValue.Lookup(SanitizedEntries(owner, i, acc, strip), k)
                        == if k != JsValue.ProtoKey && JsValue.HasKey(owner.fields[i..], k)
                           then Sanitized(JsValue.Lookup(owner.fields[i..], k), strip)
                           else JsValue.Lookup(acc, k)
    decreases |owner.fields| - i
  {
    var fs := owner.fields;
    if i < |fs| {
      var f := fs[i];
      var next := JsValue.Assign(acc, f.key, Sanitized(f.value, strip));
      JsValue.AssignFacts(acc, f.key, Sanitized(f.value, strip));
      SanitizedEntriesLookup(owner, i + 1, next, strip);
      var tail := fs[i + 1..];
      assert fs[i..] == [f] + tail;
      assert fs[i..][1..] == tail;
      assert SanitizedEntries(owner, i, acc, strip) == SanitizedEntries(owner, i + 1, next, strip);
      forall k ensures JsValue.Lookup(SanitizedEntries(owner, i, acc, strip), k)
                       == if k != JsValue.ProtoKey && JsValue.HasKey(fs[i..], k)
                          then Sanitized(JsValue.Lookup(fs[i..], k), strip)
                          else JsValue.Lookup(acc, k)
      {
        JsValue.HasKeyCons(f, tail, k);
        if k == f.key {
          assert !JsValue.HasKey(tail, k);
          assert JsValue.Lookup(fs[i..], k) == f.value;
        } else {
          assert JsValue.Lookup(fs[i..], k) == JsValue.Lookup(tail, k);
        }
      }
    } else {
      forall k ensures !JsValue.HasKey(fs[i..], k) {
        assert |fs[i..]| == 0;
      }
    }
  }

  /** `sanitizeObject` keeps the key set, but for `__proto__`, which never becomes an own key. */
  lemma SanitizeObjectKeys(fields: seq<JsValue.Field>, strip: Stripper)
    ensures forall k :: JsValue.HasKey(Sanitized(JsValue.Obj(fields), strip).fields, k)
                        <==> k != JsValue.ProtoKey && JsValue.HasKey(fields, k)
  {
    SanitizedEntriesKeys(JsValue.Obj(fields), 0, [], strip);
    assert fields[0..] == fields;
  }

  /**
   * With distinct keys (as `Object.entries` gives), every key reads the
   * sanitised original value; `__proto__` has no own entry in the result.
   */
  lemma SanitizeObjectLookup(fields: seq<JsValue.Field>, strip: Stripper)
    requires UniqueKeys(fields)
    ensures forall k :: JsValue.Lookup(Sanitized(JsValue.Obj(fields), strip).fields, k)
                        == if k == JsValue.ProtoKey then JsValue.Undefined else Sanitized(JsValue.Lookup(fields, k), strip)
  {
    SanitizedEntriesLookup(JsValue.Obj(fields), 0, [], strip);
    assert fields[0..] == fields;
  }

  /** An input whose only entry is `__proto__`, as `JSON.parse` can give, sanitises to `{}`. */
  lemma ProtoEntryDropped(v: Value, strip: Stripper)
    ensures Sanitized(JsValue.Obj([JsValue.Field(JsValue.ProtoKey, v)]), strip).fields == []
  {
    var owner := JsValue.Obj([JsValue.Field(JsValue.ProtoKey, v)]);
    assert SanitizedEntries(owner, 0, [], strip) == SanitizedEntries(owner, 1, [], strip);
  }

  /** Every string `sanitizeObject` reaches is a clean message: string values, string array elements, and nested objects' strings. */
  predicate IsSanitized(v: Value)
    decreases v
  {
    match v
    case Str(s) => IsCleanMessage(s)
    case Arr(items) => forall i :: 0 <= i < |items| && items[i].Str? ==> IsCleanMessage(items[i].s)
    case Obj(fields) => forall i :: 0 <= i < |fields| ==> IsSanitized(fields[i].value)
    case _ => true
  }

  predicate AllSanitized(fields: seq<JsValue.Field>)
  {
    forall i :: 0 <= i < |fields| ==> IsSanitized(fields[i].value)
  }

  lemma {:induction false} AssignKeepsSanitized(acc: seq<JsValue.Field>, key: string, v: Value)
    requires AllSanitized(acc) && IsSanitized(v)
    ensures AllSanitized(JsValue.Assign(acc, key, v))
  {
    var r := JsValue.Assign(acc, key, v);
    if key == JsValue.ProtoKey {
    } else if |acc| == 0 {
      assert r == [JsValue.Field(key, v)];
    } else {
      var tail := if acc[0].key == key then acc[1..] else JsValue.Assign(acc[1..], key, v);
      var head := if acc[0].key == key then JsValue.Field(key, v) else acc[0];
      assert AllSanitized(acc[1..]) by {
        assert forall i :: 0 <= i < |acc| - 1 ==> acc[1..][i] == acc[i + 1];
      }
      if acc[0].key != key {
        AssignKeepsSanitized(acc[1..], key, v);
      }
      assert r == [head] + tail;
      assert forall i :: 1 <= i < |r| ==> r[i] == tail[i - 1];
    }
  }

  lemma {:induction false} SanitizedEntriesClean(owner: Value, i: nat, acc: seq<JsValue.Field>, strip: Stripper)
    requires owner.Obj? && i <= |owner.fields|
    requires AllSanitized(acc)
    ensures AllSanitized(SanitizedEntries(owner, i, acc, strip))
    decreases owner, 0, |owner.fields| - i
  {
    if i < |owner.fields| {
      var f := owner.fields[i];
      SanitizedIsSanitized(f.value, strip);
      AssignKeepsSanitized(acc, f.key, Sanitized(f.value, strip));
      SanitizedEntriesClean(owner, i + 1, JsValue.Assign(acc, f.key, Sanitized(f.value, strip)), strip);
    }
  }

  /** Whatever the input, everything `sanitizeObject` sanitises meets the message guarantees. */
  lemma {:induction false} SanitizedIsSanitized(v: Value, strip: Stripper)
    ensures IsSanitized(Sanitized(v, strip))
    decreases v, 1
  {
    match v
    case Obj(_) => SanitizedEntriesClean(v, 0, [], strip);
    case _ =>
  }
}
