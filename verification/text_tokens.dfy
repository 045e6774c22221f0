/** Whitespace splitting and trimming as Rust's `str::split_whitespace` and `str::trim`
    perform them, restricted to ASCII whitespace. */
module TextTokens {
  import opened Outcomes

  /** The ASCII characters Rust's `char::is_whitespace` accepts: space, tab, line feed,
      vertical tab, form feed and carriage return. */
  predicate IsWhitespace(c: char) {
    c == ' ' || c == '\t' || c == '\n' || c == '\U{000B}' || c == '\U{000C}' || c == '\r'
  }

  predicate AllWhitespace(s: string) {
    forall i :: 0 <= i < |s| ==> IsWhitespace(s[i])
  }

  predicate NoWhitespace(s: string) {
    forall i :: 0 <= i < |s| ==> !IsWhitespace(s[i])
  }

  /** The length of the whitespace run that starts `s`. */
  function LeadingWhitespace(s: string): (n: nat)
    ensures n <= |s|
    ensures AllWhitespace(s[..n])
    ensures n < |s| ==> !IsWhitespace(s[n])
  {
    if |s| == 0 || !IsWhitespace(s[0]) then 0
    else
      var m := LeadingWhitespace(s[1..]);
      assert s[..m + 1] == [s[0]] + s[1..][..m];
      1 + m
  }

  /** The length of the whitespace run that ends `s`. */
  function TrailingWhitespace(s: string): (n: nat)
    ensures n <= |s|
    ensures AllWhitespace(s[|s| - n..])
    ensures n < |s| ==> !IsWhitespace(s[|s| - n - 1])
  {
    if |s| == 0 || !IsWhitespace(s[|s| - 1]) then 0
    else
      var prefix := s[..|s| - 1];
      var m := TrailingWhitespace(prefix);
      assert s[|s| - (m + 1)..] == prefix[|prefix| - m..] + [s[|s| - 1]];
      1 + m
  }

  /** The length of the non-whitespace run that starts `s`. */
  function TokenLength(s: string): (n: nat)
    ensures n <= |s|
    ensures NoWhitespace(s[..n])
    ensures n < |s| ==> IsWhitespace(s[n])
  {
    if |s| == 0 || IsWhitespace(s[0]) then 0
    else
      var m := TokenLength(s[1..]);
      assert s[..m + 1] == [s[0]] + s[1..][..m];
      1 + m
  }

  /** `tok` is the first whitespace-delimited token of `s` and begins at `start`: only
      whitespace precedes it, it is a non-empty run of non-whitespace, and it ends at the
      end of `s` or at a whitespace character. */
  predicate FirstTokenAt(s: string, start: nat, tok: string) {
    && start + |tok| <= |s|
    && 0 < |tok|
    && AllWhitespace(s[..start])
    && s[start..start + |tok|] == tok
    && NoWhitespace(tok)
    && (start + |tok| == |s| || IsWhitespace(s[start + |tok|]))
  }

  /** `s.split_whitespace().next()`: the first token, or `None` when `s` holds nothing but
      whitespace. */
  function FirstToken(s: string): (r: Option<string>)
    ensures r.None? <==> AllWhitespace(s)
    ensures r.Some? ==> FirstTokenAt(s, LeadingWhitespace(s), r.value)
  {
    var start := LeadingWhitespace(s);
    if start == |s| then
      assert s[..start] == s;
      None
    else
      var len := TokenLength(s[start..]);
      assert s[start..start + len] == s[start..][..len];
      Some(s[start..start + len])
  }

  /** The leading whitespace run is the only prefix of whitespace followed by a
      non-whitespace character or the end. */
  lemma {:induction false} LeadingWhitespaceUnique(s: string, k: nat)
    requires k <= |s| && AllWhitespace(s[..k])
    requires k < |s| ==> !IsWhitespace(s[k])
    ensures LeadingWhitespace(s) == k
  {
  }

  /** Likewise the leading token run is the only such run of non-whitespace. */
  lemma {:induction false} TokenLengthUnique(s: string, k: nat)
    requires k <= |s| && NoWhitespace(s[..k])
    requires k < |s| ==> IsWhitespace(s[k])
    ensures TokenLength(s) == k
  {
  }

  /** The first token is determined by the text: whatever satisfies the description of a
      first token is what `FirstToken` returns. */
  lemma FirstTokenUnique(s: string, start: nat, tok: string)
    requires FirstTokenAt(s, start, tok)
    ensures FirstToken(s) == Some(tok)
  {
    assert !IsWhitespace(s[start]) by {
      assert s[start] == tok[0];
    }
    LeadingWhitespaceUnique(s, start);
    var rest := s[start..];
    assert rest[..|tok|] == tok;
    TokenLengthUnique(rest, |tok|);
  }

  /** Only the first token matters: whitespace before a token and anything after the
      whitespace that ends it are ignored. */
  lemma FirstTokenIgnoresRest(lead: string, tok: string, rest: string)
    requires AllWhitespace(lead)
    requires 0 < |tok| && NoWhitespace(tok)
    requires |rest| == 0 || IsWhitespace(rest[0])
    ensures FirstToken(lead + tok + rest) == Some(tok)
  {
    var s := lead + tok + rest;
    assert s[..|lead|] == lead;
    assert s[|lead|..|lead| + |tok|] == tok;
    if |rest| > 0 {
      assert s[|lead| + |tok|] == rest[0];
    }
    FirstTokenUnique(s, |lead|, tok);
  }

  /** `str::trim`: the text without its leading and trailing whitespace. */
  function Trim(s: string): (r: string)
    ensures |r| > 0 ==> !IsWhitespace(r[0]) && !IsWhitespace(r[|r| - 1])
    ensures exists i :: BetweenWhitespace(s, i, r)
    ensures NoWhitespace(s) ==> r == s
  {
    var a := LeadingWhitespace(s);
    var t := s[a..];
    var b := TrailingWhitespace(t);
    var r := t[..|t| - b];
    TrimEnds(s, a, b);
    TrimKeepsWhitespaceFree(s);
    TrimDecomposes(s, a, t, b);
    r
  }

  /** The text `Trim` keeps neither starts nor ends with whitespace. */
  lemma TrimEnds(s: string, a: nat, b: nat)
    requires a == LeadingWhitespace(s) && b == TrailingWhitespace(s[a..])
    ensures var r := s[a..][..|s| - a - b];
      |r| > 0 ==> !IsWhitespace(r[0]) && !IsWhitespace(r[|r| - 1])
  {
    var t := s[a..];
    var r := t[..|t| - b];
    if |r| > 0 {
      assert r[0] == s[a];
      assert r[|r| - 1] == t[|t| - b - 1];
    }
  }

  /** A text without whitespace has nothing to trim. */
  lemma TrimKeepsWhitespaceFree(s: string)
    ensures NoWhitespace(s) ==> LeadingWhitespace(s) == 0 && TrailingWhitespace(s) == 0
  {
  }

  /** `r` sits at index `i` of `s` with only whitespace before and after it. */
  predicate BetweenWhitespace(s: string, i: int, r: string) {
    && 0 <= i && i + |r| <= |s|
    && AllWhitespace(s[..i])
    && s[i..i + |r|] == r
    && AllWhitespace(s[i + |r|..])
  }

  /** What `Trim` removes is whitespace on either side of what it keeps. */
  lemma TrimDecomposes(s: string, a: nat, t: string, b: nat)
    requires a <= |s| && t == s[a..] && AllWhitespace(s[..a])
    requires b <= |t| && AllWhitespace(t[|t| - b..])
    ensures BetweenWhitespace(s, a, t[..|t| - b])
  {
  }
}
