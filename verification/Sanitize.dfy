/** The character-class validators of internal/renderer/sanitize.go. */
module Sanitize {
  import opened Wrappers
  import opened Specs

  predicate IsLetter(c: char) { 'a' <= c <= 'z' || 'A' <= c <= 'Z' }

  predicate IsDigit(c: char) { '0' <= c <= '9' }

  predicate IsAttributeChar(c: char) { IsLetter(c) || IsDigit(c) || c == '-' }

  predicate IsIdentifierChar(c: char) { IsAttributeChar(c) || c == '_' }

  predicate IsValueChar(c: char) { IsIdentifierChar(c) || c in " .@:/" }

  predicate IsRegexChar(c: char) { IsValueChar(c) || c in "*+?^|(){}[]\\" }

  predicate NotBlank(c: char) { c != ' ' }

  predicate NotClosing(c: char) { c != ')' }

  predicate ValidIdentifier(s: string) {
    1 <= |s| <= 64 && IsLetter(s[0]) && forall c | c in s :: IsIdentifierChar(c)
  }

  predicate ValidAttribute(s: string) {
    1 <= |s| <= 64 && IsLetter(s[0]) && forall c | c in s :: IsAttributeChar(c)
  }

  const OPERATORS: seq<string> := ["==", "!=", ">=", "<=", ">", "<", "=~", "!~", "=", "+=", ":="]

  predicate ValidOperator(s: string) { s in OPERATORS }

  predicate ValidValue(s: string) {
    |s| <= 255 && forall c | c in s :: IsValueChar(c)
  }

  predicate ValidRegex(s: string) {
    |s| <= 255 && forall c | c in s :: IsRegexChar(c)
  }

  predicate IsRegexOperator(op: string) { op == "=~" || op == "!~" }

  predicate ValidLeaf(leaf: MatchLeaf) {
    && ValidAttribute(leaf.attribute)
    && ValidOperator(leaf.operator)
    && (if IsRegexOperator(leaf.operator) then ValidRegex(leaf.value) else ValidValue(leaf.value))
  }

  predicate ValidMatch(m: PolicyMatch) {
    forall leaf | leaf in m.all + m.any + m.none :: ValidLeaf(leaf)
  }

  predicate ValidAction(a: PolicyAction) {
    && (a.kind == "call" ==> ValidIdentifier(a.moduleName))
    && (a.kind == "set" ==> ValidAttribute(a.attribute) && ValidValue(a.value))
    && (a.kind == "redundant" || a.kind == "load-balance" ==>
          a.modules != [] && forall m | m in a.modules :: ValidIdentifier(m))
  }

  predicate ValidPolicy(p: PolicySpec) {
    p.rawConfig == "" ==>
      && (p.match_.Some? ==> ValidMatch(p.match_.value))
      && (forall a | a in p.actions :: ValidAction(a))
  }

  // ---------------------------------------------------------------- fields of modules

  predicate ValidHostname(s: string) {
    1 <= |s| <= 253 && forall c | c in s :: IsIdentifierChar(c) || c in ".:"
  }

  predicate ValidDN(s: string) {
    s != "" && forall c | c in s :: IsIdentifierChar(c) || c in " =,."
  }

  predicate ValidFilePath(s: string) {
    1 <= |s| <= 255 && forall c | c in s :: IsIdentifierChar(c) || c in "/."
  }

  predicate IsSchemeChar(c: char) { IsLetter(c) || IsDigit(c) || c in "+.-" }

  predicate IsURIChar(c: char) { c !in "\t\n\U{0C}\r \"'\\`" }

  /** A scheme, `://`, and anything without white space, quotes and backslashes. */
  predicate ValidURI(s: string) {
    exists n | 0 < n < |s| ::
      && IsLetter(s[0]) && (forall i | 0 <= i < n :: IsSchemeChar(s[i]))
      && "://" <= s[n..] && |s| > n + 3 && forall i | n + 3 <= i < |s| :: IsURIChar(s[i])
  }

  /** strings.ToUpper, as far as its result can be a plain letter. */
  function Upper(c: char): char {
    if 'a' <= c <= 'z' then (c as int - 32) as char
    else if c == '\U{131}' then 'I'
    else if c == '\U{17F}' then 'S'
    else c
  }

  function ToUpper(s: string): string {
    seq(|s|, i requires 0 <= i < |s| => Upper(s[i]))
  }

  const HTTP_METHODS: seq<string> := ["GET", "POST", "PUT", "PATCH", "DELETE", "HEAD", "OPTIONS"]

  predicate ValidHTTPMethod(s: string) { ToUpper(s) in HTTP_METHODS }

  /** Nothing that could end or escape a quoted string. */
  predicate ValidQuoted(s: string) {
    forall c | c in s :: c !in "\"'`\\$\n\r"
  }

  predicate ValidSQL(c: SQLConfig) {
    ValidIdentifier(c.dialect) && ValidHostname(c.server) && ValidQuoted(c.database) && ValidQuoted(c.login)
  }

  predicate ValidLDAP(c: LDAPConfig) {
    ValidHostname(c.server) && ValidDN(c.baseDN) && ValidDN(c.identity)
  }

  predicate ValidTunnel(t: EAPTunnel) {
    (t.defaultEAPType != "" ==> ValidIdentifier(t.defaultEAPType)) &&
      (t.virtualServer != "" ==> ValidIdentifier(t.virtualServer))
  }

  predicate ValidEAP(c: EAPConfig) {
    && ValidIdentifier(c.defaultEAPType)
    && (c.tls.Some? ==>
          && (c.tls.value.certFile != "" ==> ValidFilePath(c.tls.value.certFile))
          && (c.tls.value.keyFile != "" ==> ValidFilePath(c.tls.value.keyFile)))
    && (c.ttls.Some? ==> ValidTunnel(c.ttls.value))
    && (c.peap.Some? ==> ValidTunnel(c.peap.value))
  }

  predicate ValidRESTStage(s: Option<RESTStage>) {
    s.Some? ==>
      (s.value.uri != "" ==> ValidQuoted(s.value.uri)) && (s.value.verb != "" ==> ValidHTTPMethod(s.value.verb))
  }

  predicate ValidREST(c: RESTConfig) {
    && ValidURI(c.connectURI) && (c.auth != "" ==> ValidIdentifier(c.auth))
    && ValidRESTStage(c.authorize) && ValidRESTStage(c.authenticate) && ValidRESTStage(c.preacct) &&
       ValidRESTStage(c.accounting)
    && ValidRESTStage(c.postAuth) && ValidRESTStage(c.preProxy) && ValidRESTStage(c.postProxy)
  }

  predicate ValidRedis(c: RedisConfig) { ValidHostname(c.server) }

  predicate ValidFiles(c: FilesConfig) { c.key != "" ==> ValidQuoted(c.key) }

  // ---------------------------------------------------------------- regular expressions

  /** How many backslashes stand immediately before position `k`. */
  function BackslashRun(s: string, k: nat): (n: nat)
    requires k <= |s|
    ensures n <= k
  {
    if k == 0 || s[k - 1] != '\\' then 0 else 1 + BackslashRun(s, k - 1)
  }

  /** No unescaped `/` inside, and no backslash that would escape the closing `/`. */
  predicate RegexClosed(s: string) {
    && (forall k | 0 <= k < |s| && s[k] == '/' :: BackslashRun(s, k) % 2 == 1)
    && BackslashRun(s, |s|) % 2 == 0
  }

  predicate LeafClosed(leaf: MatchLeaf) {
    IsRegexOperator(leaf.operator) ==> RegexClosed(leaf.value)
  }

  /** What the regex scanner consumes at once: an ordinary character, or a backslash and its character. */
  predicate RegexUnit(u: string) {
    (|u| == 1 && u[0] != '/' && u[0] != '\\') || (|u| == 2 && u[0] == '\\')
  }

  lemma {:induction false} RunAfterUnit(u: string, s: string, k: nat)
    requires RegexUnit(u) && k <= |s|
    ensures BackslashRun(u + s, |u| + k) % 2 == BackslashRun(s, k) % 2
  {
    if k == 0 {
      if |u| == 2 {
        assert (u + s)[1] == u[1] && (u + s)[0] == u[0];
        assert BackslashRun(u + s, 1) == 1;
      }
    } else {
      assert (u + s)[|u| + k - 1] == s[k - 1];
      RunAfterUnit(u, s, k - 1);
    }
  }

  lemma SlashAfterUnit(u: string, s: string, k: nat)
    requires RegexUnit(u) && k < |u + s| && (u + s)[k] == '/'
    requires k >= |u| ==> BackslashRun(s, k - |u|) % 2 == 1
    ensures BackslashRun(u + s, k) % 2 == 1
  {
    if k < |u| {
      assert BackslashRun(u + s, 1) == 1 + BackslashRun(u + s, 0);
    } else {
      RunAfterUnit(u, s, k - |u|);
    }
  }

  lemma SlashInRest(u: string, s: string, k: nat)
    requires RegexUnit(u) && k < |s| && s[k] == '/' && RegexClosed(u + s)
    ensures BackslashRun(s, k) % 2 == 1
  {
    RunAfterUnit(u, s, k);
    assert (u + s)[|u| + k] == '/';
  }

  lemma ClosedExtend(u: string, s: string)
    requires RegexUnit(u)
    ensures RegexClosed(u + s) <==> RegexClosed(s)
  {
    RunAfterUnit(u, s, |s|);
    assert |u + s| == |u| + |s|;
    if RegexClosed(s) {
      forall k | 0 <= k < |u + s| && (u + s)[k] == '/'
        ensures BackslashRun(u + s, k) % 2 == 1
      {
        SlashAfterUnit(u, s, k);
      }
    }
    if RegexClosed(u + s) {
      forall k | 0 <= k < |s| && s[k] == '/'
        ensures BackslashRun(s, k) % 2 == 1
      {
        SlashInRest(u, s, k);
      }
    }
  }
}
