/** The query encoder both scrapers use: a job title becomes a URL query string by replacing
    every ASCII space with '+'. The transformation is one-way. */
module QueryEncoding {

  /** Encodes a job title for a search URL. */
  function EncodeQuery(title: string): (q: string)
    ensures |q| == |title|
    ensures forall i :: 0 <= i < |title| && title[i] == ' ' ==> q[i] == '+'
    ensures forall i :: 0 <= i < |title| && title[i] != ' ' ==> q[i] == title[i]
    ensures ' ' !in q
  {
    if |title| == 0 then []
    else
      var last := title[|title| - 1];
      EncodeQuery(title[..|title| - 1]) + [if last == ' ' then '+' else last]
  }

  /** The strings the encoder leaves alone are exactly those without a space. */
  lemma EncodeQueryFixpoints(s: string)
    ensures EncodeQuery(s) == s <==> ' ' !in s
  {
  }

  /** Encoding an already-encoded title changes nothing. */
  lemma EncodeQueryIdempotent(title: string)
    ensures EncodeQuery(EncodeQuery(title)) == EncodeQuery(title)
  {
    EncodeQueryFixpoints(EncodeQuery(title));
  }

  /** The encoder works character by character, so it distributes over concatenation. */
  lemma EncodeQueryConcat(a: string, b: string)
    ensures EncodeQuery(a + b) == EncodeQuery(a) + EncodeQuery(b)
  {
  }

  /** The encoding is not injective: a title with a space and the same title with '+'
      produce the same query, so the query cannot be decoded back. */
  lemma EncodeQueryNotInjective()
    ensures EncodeQuery("a b") == EncodeQuery("a+b") == "a+b"
  {
  }

  lemma EncodeQueryExample()
    ensures EncodeQuery("software engineer") == "software+engineer"
  {
  }
}
