/** The string operations that the printers and parsers share.

    Throughout the project long literals are written in two or more pieces, nested like the texts that
    hold them: the verifier takes a literal apart character by character, and short ones keep proofs fast. */
module Text {
  import opened Wrappers

  /** `s` without the given prefix. */
  function Strip(s: string, prefix: string): (r: Option<string>)
    ensures r.Some? <==> prefix <= s
    ensures r.Some? ==> s == prefix + r.value
  {
    if prefix <= s then Some(s[|prefix|..]) else None
  }

  lemma StripAppend(prefix: string, rest: string)
    ensures Strip(prefix + rest, prefix) == Some(rest)
  {
  }

  /** The longest prefix of `s` whose characters all satisfy `p`. */
  function TakeWhile(s: string, p: char -> bool): (r: string)
    ensures r <= s
    ensures forall c | c in r :: p(c)
  {
    if s == "" || !p(s[0]) then "" else [s[0]] + TakeWhile(s[1..], p)
  }

  function DropWhile(s: string, p: char -> bool): string {
    s[|TakeWhile(s, p)|..]
  }

  lemma {:induction false} TakeWhileStops(head: string, rest: string, p: char -> bool)
    requires forall c | c in head :: p(c)
    requires rest == "" || !p(rest[0])
    ensures TakeWhile(head + rest, p) == head
    ensures DropWhile(head + rest, p) == rest
  {
    if head == "" {
      assert head + rest == rest;
    } else {
      TakeWhileStops(head[1..], rest, p);
      assert (head + rest)[1..] == head[1..] + rest;
    }
  }

  /** strings.Join. */
  function Join(parts: seq<string>, sep: string): string {
    if parts == [] then ""
    else if |parts| == 1 then parts[0]
    else parts[0] + sep + Join(parts[1..], sep)
  }

  lemma Assoc(a: string, b: string, c: string)
    ensures (a + b) + c == a + (b + c)
  {
  }

  lemma Assoc4(a: string, b: string, c: string, d: string)
    ensures ((a + b) + c) + d == a + (b + (c + d))
  {
    Assoc(a + b, c, d);
    Assoc(a, b, c + d);
  }

  // What follows a right-nested text moves inside it.

  lemma Push3(a: string, b: string, c: string, rest: string)
    ensures (a + (b + c)) + rest == a + (b + (c + rest))
  {
    Assoc(a, b + c, rest);
    Assoc(b, c, rest);
  }

  lemma Push4(a: string, b: string, c: string, d: string, rest: string)
    ensures (a + (b + (c + d))) + rest == a + (b + (c + (d + rest)))
  {
    Assoc(a, b + (c + d), rest);
    Push3(b, c, d, rest);
  }

  lemma Push5(a: string, b: string, c: string, d: string, e: string, rest: string)
    ensures (a + (b + (c + (d + e)))) + rest == a + (b + (c + (d + (e + rest))))
  {
    Assoc(a, b + (c + (d + e)), rest);
    Push4(b, c, d, e, rest);
  }

  lemma Push6(a: string, b: string, c: string, d: string, e: string, f: string, rest: string)
    ensures (a + (b + (c + (d + (e + f))))) + rest == a + (b + (c + (d + (e + (f + rest)))))
  {
    Assoc(a, b + (c + (d + (e + f))), rest);
    Push5(b, c, d, e, f, rest);
  }
}
