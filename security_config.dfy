// Security configuration constants (lib/config/security.ts): the allowed
// CORS origins, the HSTS header and the nonce-based Content-Security-Policy.
module SecurityConfig {
  import Text

  // ---------------------------------------------------------------- CORS origins

  /** `ALLOWED_ORIGINS`, by whether `NODE_ENV` is 'development'. */
  function AllowedOrigins(development: bool): (r: seq<string>)
    ensures |r| == 2
    ensures forall i :: 0 <= i < |r| ==> r[i] != "*" && Text.StartsWith(r[i], "http")
    ensures !development ==> forall i :: 0 <= i < |r| ==> Text.StartsWith(r[i], "https://")
  {
    if development then ["http://localhost:3000", "http://127.0.0.1:3000"]
    else ["https://www.smecai.online", "https://smecai.online"]
  }

  // ---------------------------------------------------------------- HSTS

  datatype Header = Header(key: string, value: string)

  /** The directives of the HSTS value, two years in seconds first. */
  const HstsDirectives: seq<string> := ["max-age=63072000", "includeSubDomains", "preload"]

  /** `HSTS_HEADER`. */
  const HstsHeader: Header := Header("Strict-Transport-Security", Text.Join(HstsDirectives, "; "))

  lemma HstsHeaderContents()
    ensures HstsHeader.key == "Strict-Transport-Security"
    ensures HstsHeader.value == "max-age=63072000" + "; " + "includeSubDomains" + "; " + "preload"
    ensures forall k :: 0 <= k < |HstsDirectives| ==> Text.Includes(HstsHeader.value, HstsDirectives[k])
  {
    forall k | 0 <= k < |HstsDirectives| ensures Text.Includes(HstsHeader.value, HstsDirectives[k]) {
      Text.JoinIncludesElement(HstsDirectives, "; ", k);
    }
  }

  // ---------------------------------------------------------------- CSP tokens and directives

  /** A character a policy token may hold: printable ASCII without space, `;` or `,`. */
  predicate IsTokenChar(c: char)
  {
    '!' <= c <= '~' && c != ';' && c != ','
  }

  predicate IsToken(t: string)
  {
    |t| > 0 && forall i :: 0 <= i < |t| ==> IsTokenChar(t[i])
  }

  /** One policy directive: its name and its source expressions. */
  datatype Directive = Directive(name: string, sources: seq<string>)

  predicate WellFormed(d: Directive)
  {
    IsToken(d.name) && forall i :: 0 <= i < |d.sources| ==> IsToken(d.sources[i])
  }

  /** The directive as written in the policy: the name, then the sources, separated by spaces. */
  function Render(d: Directive): string
  {
    Text.Join([d.name] + d.sources, " ")
  }

  function Rendered(ds: seq<Directive>): (r: seq<string>)
    ensures |r| == |ds|
    ensures forall i :: 0 <= i < |ds| ==> r[i] == Render(ds[i])
  {
    seq(|ds|, i requires 0 <= i < |ds| => Render(ds[i]))
  }

  /** `'nonce-<nonce>'`. */
  function NonceSource(nonce: string): string
  {
    "'nonce-" + nonce + "'"
  }

  /** `basePolicy`, directive by directive. */
  function BasePolicy(nonce: string): seq<Directive>
  {
    [ Directive("default-src", ["'self'"]),
      Directive("base-uri", ["'self'"]),
      Directive("object-src", ["'none'"]),
      Directive("frame-ancestors", ["'none'"]),
      Directive("script-src", ["'self'", NonceSource(nonce)]),
      Directive("style-src", ["'self'", "https://fonts.googleapis.com", NonceSource(nonce)]),
      Directive("font-src", ["'self'", "https://fonts.gstatic.com"]),
      Directive("img-src", ["'self'", "data:"]),
      Directive("connect-src", ["'self'", "https://api.openai.com", "https://*.anthropic.com",
                                "https://*.neon.tech"]),
      Directive("upgrade-insecure-requests", []),
      Directive("require-trusted-types-for", ["'script'"]) ]
  }

  const ReportUri: Directive := Directive("report-uri", ["/csp-report"])

  /** The directives `buildCsp` joins: the report URI is added outside production. */
  function Policy(nonce: string, isProd: bool): seq<Directive>
  {
    BasePolicy(nonce) + (if isProd then [] else [ReportUri])
  }

  /** `buildCsp(nonce, isProd)`. */
  function BuildCsp(nonce: string, isProd: bool): string
  {
    Text.Join(Rendered(Policy(nonce, isProd)), "; ")
  }

  // ---------------------------------------------------------------- reading a policy back

  /** One directive read from a piece of the policy: trimmed, then split at spaces. */
  function ParseDirective(piece: string): Directive
  {
    var tokens := Text.Split(Text.Trim(piece), ' ');
    Directive(tokens[0], tokens[1..])
  }

  function ParsePieces(pieces: seq<string>): (r: seq<Directive>)
    ensures |r| == |pieces|
  {
    if |pieces| == 0 then [] else [ParseDirective(pieces[0])] + ParsePieces(pieces[1..])
  }

  /** A policy as a browser reads it: split at `;`, each directive split at spaces. */
  function ParsePolicy(header: string): seq<Directive>
  {
    ParsePieces(Text.Split(header, ';'))
  }

  lemma TokenAvoids(t: string)
    requires IsToken(t)
    ensures ';' !in t && ' ' !in t
    ensures !Text.IsSpace(t[0]) && !Text.IsSpace(t[|t| - 1])
  {
    assert IsTokenChar(t[0]) && IsTokenChar(t[|t| - 1]);
  }

  /** A rendered directive has no `;` and no white space at either end. */
  lemma RenderShape(d: Directive)
    requires WellFormed(d)
    ensures ';' !in Render(d)
    ensures |Render(d)| > 0 && !Text.IsSpace(Render(d)[0]) && !Text.IsSpace(Render(d)[|Render(d)| - 1])
    ensures Text.Split(Render(d), ' ') == [d.name] + d.sources
  {
    var xs := [d.name] + d.sources;
    assert forall k :: 0 <= k < |xs| ==> IsToken(xs[k]);
    forall k | 0 <= k < |xs| ensures ';' !in xs[k] && ' ' !in xs[k] {
      TokenAvoids(xs[k]);
    }
    Text.JoinSplit(xs, ' ');
    NoSemicolonJoin(xs);
    var r := Render(d);
    Text.JoinStartsWithFirst(xs, " ");
    Text.JoinEndsWithLast(xs, " ");
    TokenAvoids(xs[0]);
    TokenAvoids(xs[|xs| - 1]);
    assert r[0] == xs[0][0];
    assert r[|r| - 1] == xs[|xs| - 1][|xs[|xs| - 1]| - 1];
  }

  lemma {:induction false} NoSemicolonJoin(xs: seq<string>)
    requires forall k :: 0 <= k < |xs| ==> ';' !in xs[k]
    ensures ';' !in Text.Join(xs, " ")
  {
    if |xs| > 1 {
      NoSemicolonJoin(xs[1..]);
    }
  }

  /** A well-formed directive, after an optional space, reads back as itself. */
  lemma ParseRendered(pre: string, d: Directive)
    requires pre == "" || pre == " "
    requires WellFormed(d)
    ensures ParseDirective(pre + Render(d)) == d
  {
    RenderShape(d);
    Text.TrimAround(pre, Render(d), "");
    assert pre + Render(d) + "" == pre + Render(d);
  }

  /** The pieces of a joined policy after `pre`, split at `;`. */
  lemma {:induction false} ParseJoined(pre: string, ds: seq<Directive>)
    requires pre == "" || pre == " "
    requires |ds| > 0 && forall i :: 0 <= i < |ds| ==> WellFormed(ds[i])
    ensures ParsePieces(Text.Split(pre + Text.Join(Rendered(ds), "; "), ';')) == ds
    decreases |ds|
  {
    if |ds| == 1 {
      ParseJoinedOne(pre, ds);
    } else {
      ParseJoined(" ", ds[1..]);
      ParseJoinedStep(pre, ds);
    }
  }

  lemma ParseJoinedOne(pre: string, ds: seq<Directive>)
    requires pre == "" || pre == " "
    requires |ds| == 1 && WellFormed(ds[0])
    ensures ParsePieces(Text.Split(pre + Text.Join(Rendered(ds), "; "), ';')) == ds
  {
    var head := pre + Render(ds[0]);
    RenderShape(ds[0]);
    ParseRendered(pre, ds[0]);
    assert pre + Text.Join(Rendered(ds), "; ") == head;
    Text.SplitWithout(head, ';');
  }

  /** The first directive's piece, then the pieces of the rest. */
  lemma ParseJoinedStep(pre: string, ds: seq<Directive>)
    requires pre == "" || pre == " "
    requires |ds| > 1 && forall i :: 0 <= i < |ds| ==> WellFormed(ds[i])
    requires ParsePieces(Text.Split(" " + Text.Join(Rendered(ds[1..]), "; "), ';')) == ds[1..]
    ensures ParsePieces(Text.Split(pre + Text.Join(Rendered(ds), "; "), ';')) == ds
  {
    var rs := Rendered(ds);
    var head := pre + rs[0];
    RenderShape(ds[0]);
    ParseRendered(pre, ds[0]);
    var tail := Text.Join(Rendered(ds[1..]), "; ");
    RenderedTail(ds);
    JoinCons(pre, rs);
    SplitAfterFirst(head, " " + tail);
    var later := Text.Split(" " + tail, ';');
    PiecesCons(head, later);
    HeadTail(ds);
  }

  lemma RenderedTail(ds: seq<Directive>)
    requires |ds| > 0
    ensures Rendered(ds)[1..] == Rendered(ds[1..])
  {
  }

  lemma HeadTail(ds: seq<Directive>)
    requires |ds| > 0
    ensures ds == [ds[0]] + ds[1..]
  {
  }

  lemma JoinCons(pre: string, rs: seq<string>)
    requires |rs| > 1
    ensures pre + Text.Join(rs, "; ") == (pre + rs[0]) + [';'] + (" " + Text.Join(rs[1..], "; "))
  {
  }

  lemma PiecesCons(head: string, later: seq<string>)
    ensures ParsePieces([head] + later) == [ParseDirective(head)] + ParsePieces(later)
  {
    assert ([head] + later)[1..] == later;
  }

  lemma SplitAfterFirst(a: string, b: string)
    requires ';' !in a
    ensures Text.Split(a + [';'] + b, ';') == [a] + Text.Split(b, ';')
  {
    Text.SplitAfterPiece(a, ';', b);
  }

  // ---------------------------------------------------------------- what the policy promises

  /** A nonce as the middleware generates it: base64, so token characters only. */
  predicate IsNonce(nonce: string)
  {
    forall i :: 0 <= i < |nonce| ==> IsTokenChar(nonce[i])
  }

  lemma NonceSourceToken(nonce: string)
    requires IsNonce(nonce)
    ensures IsToken(NonceSource(nonce))
  {
    var t := NonceSource(nonce);
    assert forall i :: 0 <= i < |t| ==> t[i] == '\'' || t[i] in "nonce-" || t[i] in nonce;
  }

  lemma LiteralTokensA()
    ensures IsToken("default-src") && IsToken("base-uri") && IsToken("object-src")
    ensures IsToken("frame-ancestors") && IsToken("script-src") && IsToken("style-src")
  {
  }

  lemma LiteralTokensB()
    ensures IsToken("font-src") && IsToken("img-src") && IsToken("connect-src")
    ensures IsToken("upgrade-insecure-requests") && IsToken("require-trusted-types-for")
    ensures IsToken("report-uri")
  {
  }

  lemma LiteralTokensC()
    ensures IsToken("'self'") && IsToken("'none'") && IsToken("'script'") && IsToken("data:")
    ensures IsToken("/csp-report")
  {
  }

  lemma HostTokens()
    ensures IsToken("https://fonts.googleapis.com") && IsToken("https://fonts.gstatic.com")
    ensures IsToken("https://api.openai.com") && IsToken("https://*.anthropic.com")
    ensures IsToken("https://*.neon.tech")
  {
  }

  lemma PolicyWellFormed(nonce: string, isProd: bool)
    requires IsNonce(nonce)
    ensures forall i :: 0 <= i < |Policy(nonce, isProd)| ==> WellFormed(Policy(nonce, isProd)[i])
  {
    LiteralTokensA();
    LiteralTokensB();
    LiteralTokensC();
    HostTokens();
    NonceSourceToken(nonce);
  }

  /** A browser reading the header finds exactly the directives `buildCsp` joined. */
  lemma CspReadsBack(nonce: string, isProd: bool)
    requires IsNonce(nonce)
    ensures ParsePolicy(BuildCsp(nonce, isProd)) == Policy(nonce, isProd)
  {
    PolicyWellFormed(nonce, isProd);
    ParseJoined("", Policy(nonce, isProd));
    assert "" + BuildCsp(nonce, isProd) == BuildCsp(nonce, isProd);
  }

  /** `'report-uri /csp-report'` is the last directive exactly outside production, and absent in production. */
  lemma ReportUriLastUnlessProd(nonce: string, isProd: bool)
    ensures var p := Policy(nonce, isProd);
      (p[|p| - 1] == ReportUri <==> !isProd)
      && (isProd ==> forall i :: 0 <= i < |p| ==> p[i].name != "report-uri")
  {
  }

  /** Both script-src and style-src allow the nonce, as their last source. */
  lemma NonceInScriptAndStyle(nonce: string, isProd: bool)
    ensures exists i :: 0 <= i < |Policy(nonce, isProd)| && Policy(nonce, isProd)[i].name == "script-src"
                        && NonceSource(nonce) in Policy(nonce, isProd)[i].sources
    ensures exists i :: 0 <= i < |Policy(nonce, isProd)| && Policy(nonce, isProd)[i].name == "style-src"
                        && NonceSource(nonce) in Policy(nonce, isProd)[i].sources
  {
    var p := Policy(nonce, isProd);
    assert p[4].name == "script-src" && p[4].sources[1] == NonceSource(nonce);
    assert p[5].name == "style-src" && p[5].sources[2] == NonceSource(nonce);
  }

  /** The locking-down directives are present in the policy and in the header text. */
  lemma RequiredDirectives(nonce: string, isProd: bool)
    ensures var p := Policy(nonce, isProd);
      Directive("default-src", ["'self'"]) in p && Directive("object-src", ["'none'"]) in p
      && Directive("frame-ancestors", ["'none'"]) in p && Directive("require-trusted-types-for", ["'script'"]) in p
    ensures Text.Includes(BuildCsp(nonce, isProd), Render(Directive("default-src", ["'self'"])))
    ensures Text.Includes(BuildCsp(nonce, isProd), Render(Directive("object-src", ["'none'"])))
    ensures Text.Includes(BuildCsp(nonce, isProd), Render(Directive("frame-ancestors", ["'none'"])))
    ensures Text.Includes(BuildCsp(nonce, isProd), Render(Directive("require-trusted-types-for", ["'script'"])))
  {
    var p := Policy(nonce, isProd);
    var rs := Rendered(p);
    assert p[0] == Directive("default-src", ["'self'"]);
    assert p[2] == Directive("object-src", ["'none'"]);
    assert p[3] == Directive("frame-ancestors", ["'none'"]);
    assert p[10] == Directive("require-trusted-types-for", ["'script'"]);
    Text.JoinIncludesElement(rs, "; ", 0);
    Text.JoinIncludesElement(rs, "; ", 2);
    Text.JoinIncludesElement(rs, "; ", 3);
    Text.JoinIncludesElement(rs, "; ", 10);
  }

  /** No directive allows `'unsafe-inline'` or `'unsafe-eval'`, whatever the nonce. */
  lemma NoUnsafeSources(nonce: string, isProd: bool)
    ensures var p := Policy(nonce, isProd);
      forall i, j :: 0 <= i < |p| && 0 <= j < |p[i].sources| ==>
        p[i].sources[j] != "'unsafe-inline'" && p[i].sources[j] != "'unsafe-eval'"
  {
    var n := NonceSource(nonce);
    assert n[1] == 'n';
  }

  /** What the header says, as a browser reads it, carries no unsafe source. */
  lemma CspHasNoUnsafeSource(nonce: string, isProd: bool)
    requires IsNonce(nonce)
    ensures var p := ParsePolicy(BuildCsp(nonce, isProd));
      forall i, j :: 0 <= i < |p| && 0 <= j < |p[i].sources| ==>
        p[i].sources[j] != "'unsafe-inline'" && p[i].sources[j] != "'unsafe-eval'"
  {
    CspReadsBack(nonce, isProd);
    NoUnsafeSources(nonce, isProd);
  }
}
