/**
 * The string operation the message handler applies to every incoming text:
 * JavaScript's String.prototype.trim, which removes leading and trailing
 * WhiteSpace and LineTerminator code points (ECMAScript 2024, sections
 * 12.2, 12.3 and 22.1.3.32).
 */
module JsText {

  /** WhiteSpace (including the Unicode Zs category) or LineTerminator. */
  predicate IsTrimSpace(c: char) {
    || c == '\t' || c == '\n' || c == '\U{000B}' || c == '\U{000C}' || c == '\r'
    || c == ' ' || c == '\U{00A0}' || c == '\U{1680}'
    || ('\U{2000}' <= c <= '\U{200A}')
    || c == '\U{2028}' || c == '\U{2029}' || c == '\U{202F}' || c == '\U{205F}'
    || c == '\U{3000}' || c == '\U{FEFF}'
  }

  predicate AllSpace(s: string) {
    forall i :: 0 <= i < |s| ==> IsTrimSpace(s[i])
  }

  /** Drops the leading white space. */
  function TrimStart(s: string): string {
    if s != [] && IsTrimSpace(s[0]) then TrimStart(s[1..]) else s
  }

  /** Drops the trailing white space. */
  function TrimEnd(s: string): string {
    if s != [] && IsTrimSpace(s[|s| - 1]) then TrimEnd(s[..|s| - 1]) else s
  }

  /** `text.trim()`. */
  function Trim(s: string): string {
    TrimEnd(TrimStart(s))
  }

  /** TrimStart leaves the suffix after the leading white space. */
  lemma {:induction false} TrimStartShape(s: string)
    ensures var r := TrimStart(s);
            && |r| <= |s| && r == s[|s| - |r|..]
            && (r == [] || !IsTrimSpace(r[0]))
            && AllSpace(s[..|s| - |r|])
  {
    if s != [] && IsTrimSpace(s[0]) {
      TrimStartShape(s[1..]);
      var r := TrimStart(s);
      assert s[..|s| - |r|] == [s[0]] + s[1..][..|s| - 1 - |r|];
    }
  }

  /** TrimEnd leaves the prefix before the trailing white space. */
  lemma {:induction false} TrimEndShape(s: string)
    ensures var r := TrimEnd(s);
            && |r| <= |s| && r == s[..|r|]
            && (r == [] || !IsTrimSpace(r[|r| - 1]))
            && AllSpace(s[|r|..])
  {
    if s != [] && IsTrimSpace(s[|s| - 1]) {
      TrimEndShape(s[..|s| - 1]);
      var r := TrimEnd(s);
      assert s[|r|..] == s[..|s| - 1][|r|..] + [s[|s| - 1]];
    }
  }

  /**
   * The result of trim is a contiguous piece of `s` that neither starts nor
   * ends with white space, and it is empty exactly when `s` is all white space.
   */
  lemma TrimShape(s: string)
    ensures var r := Trim(s);
            && |r| <= |TrimStart(s)| <= |s|
            && r == s[|s| - |TrimStart(s)|..][..|r|]
            && (r == [] || (!IsTrimSpace(r[0]) && !IsTrimSpace(r[|r| - 1])))
            && (r == [] <==> AllSpace(s))
  {
    TrimStartShape(s);
    TrimEndShape(TrimStart(s));
    TrimEmptyIffAllSpace(s);
  }

  lemma TrimEmptyIffAllSpace(s: string)
    ensures Trim(s) == [] <==> AllSpace(s)
  {
    var t := TrimStart(s);
    var r := TrimEnd(t);
    TrimStartShape(s);
    TrimEndShape(t);
    var a := |s| - |t|;
    if r == [] {
      assert t[|r|..] == t;
      assert s == s[..a] + t;
      AllSpaceConcat(s[..a], t);
    } else {
      assert r[0] == t[0] == s[a];
    }
  }

  lemma AllSpaceConcat(a: string, b: string)
    requires AllSpace(a) && AllSpace(b)
    ensures AllSpace(a + b)
  {
    forall i | 0 <= i < |a + b|
      ensures IsTrimSpace((a + b)[i])
    {
      if i >= |a| { assert (a + b)[i] == b[i - |a|]; }
    }
  }

  /** Text that neither starts nor ends with white space. */
  predicate Trimmed(s: string) {
    s == [] || (!IsTrimSpace(s[0]) && !IsTrimSpace(s[|s| - 1]))
  }

  /** Text that already has no surrounding white space is left as it is. */
  lemma TrimKeepsTrimmed(s: string)
    requires Trimmed(s)
    ensures Trim(s) == s
  {
  }

  /** A padded answer: the spaces and the line break around it go. */
  lemma TrimExample()
    ensures Trim(" Anna\n") == "Anna"
  {
    assert TrimStart(" Anna\n") == TrimStart("Anna\n") == "Anna\n";
    assert TrimEnd("Anna\n") == TrimEnd("Anna") == "Anna";
  }

  /** Trimming twice is trimming once. */
  lemma TrimIdempotent(s: string)
    ensures Trim(Trim(s)) == Trim(s)
  {
    TrimShape(s);
    TrimKeepsTrimmed(Trim(s));
  }
}
