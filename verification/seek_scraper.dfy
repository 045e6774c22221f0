/** The Seek scraper: requests the job-counts endpoint for the title and adds up the counts
    in the `items` bucket of the third entry of `counts`. */
module SeekScraper {
  import opened Outcomes
  import opened QueryEncoding
  import opened Json

  const COUNTS_ENDPOINT := "https://jobsearch-api-ts.cloud.seek.com.au/v4/counts"
  const COUNTS_REGION := "?siteKey=NZ-Main&where=All+New+Zealand"
  const COUNTS_KEYWORDS := "&keywords="
  /** The fixed part of the request: the counts endpoint, the New Zealand site and region,
      and the keyword parameter last so that the encoded title can follow it. */
  const COUNTS_URL_PREFIX := COUNTS_ENDPOINT + COUNTS_REGION + COUNTS_KEYWORDS
  const ITEMS_NOT_OBJECT := "Failed to parse JSON returned from Seek job counts API."
  const COUNT_NOT_U64 := "Failed to parse list of job counts from Seek job count response."

  /** The counts-endpoint URL for a job title. */
  function CountsUrl(title: string): (url: string)
    ensures |url| == |COUNTS_URL_PREFIX| + |title|
    ensures url[..|COUNTS_URL_PREFIX|] == COUNTS_URL_PREFIX
    ensures url[|COUNTS_URL_PREFIX|..] == EncodeQuery(title)
    ensures ' ' !in url[|COUNTS_URL_PREFIX|..]
  {
    COUNTS_URL_PREFIX + EncodeQuery(title)
  }

  /** Two titles send the same request exactly when their encoded queries agree. */
  lemma CountsUrlDeterminesQuery(a: string, b: string)
    ensures CountsUrl(a) == CountsUrl(b) <==> EncodeQuery(a) == EncodeQuery(b)
  {
  }

  /** `body.counts[2].items` exists and is an object with these members. */
  predicate ReachesItems(body: Json, items: seq<Member>) {
    && body.Object?
    && var counts := Lookup(body.members, "counts");
       (&& counts.Some?
        && counts.value.Array?
        && 2 < |counts.value.elements|
        && var bucket := counts.value.elements[2];
           (&& bucket.Object?
            && Lookup(bucket.members, "items") == Some(Object(items))))
  }

  /** `json["counts"][2]["items"].as_object()` */
  function CountItems(body: Json): (r: Option<seq<Member>>)
    ensures r.Some? ==> ReachesItems(body, r.value)
    ensures forall items :: ReachesItems(body, items) ==> r == Some(items)
  {
    AsObject(Field(Element(Field(body, "counts"), 2), "items"))
  }

  /** Every member's value is a `u64`. */
  predicate AllCounts(members: seq<Member>) {
    forall i :: 0 <= i < |members| ==> AsU64(members[i].value).Some?
  }

  /** `values().map(as_u64).collect::<Option<Vec<_>>>()`: the counts in member order, or
      nothing as soon as one value is not a `u64`. */
  function CollectCounts(members: seq<Member>): (r: Option<seq<nat>>)
    ensures r.Some? <==> AllCounts(members)
    ensures r.Some? ==> |r.value| == |members|
    ensures r.Some? ==> forall i :: 0 <= i < |members| ==> AsU64(members[i].value) == Some(r.value[i])
  {
    if |members| == 0 then Some([])
    else
      match AsU64(members[0].value)
      case None => None
      case Some(c) =>
        match CollectCounts(members[1..])
        case None =>
          assert !AllCounts(members[1..]);
          None
        case Some(rest) => Some([c] + rest)
  }

  function Sum(xs: seq<nat>): nat {
    if |xs| == 0 then 0 else xs[0] + Sum(xs[1..])
  }

  /** The count a member holds; it is only read when every member holds one. */
  function CountOf(m: Member): nat {
    match AsU64(m.value)
    case Some(c) => c
    case None => 0
  }

  /** The reference total: the sum of the members' counts, read off the members directly. */
  function ItemsTotal(members: seq<Member>): nat {
    if |members| == 0 then 0 else CountOf(members[0]) + ItemsTotal(members[1..])
  }

  /** Summing the collected counts gives the reference total. */
  lemma {:induction false} CollectedSumIsTotal(members: seq<Member>)
    requires AllCounts(members)
    ensures Sum(CollectCounts(members).value) == ItemsTotal(members)
  {
    if |members| > 0 {
      CollectedSumIsTotal(members[1..]);
    }
  }

  /** The count in a response body. The `items` bucket must be an object and every value in
      it a `u64`; the count is then their sum. Never "no count shown". */
  function CountFromBody(body: Json): (r: JobCount)
    ensures r != Ok(None)
    ensures CountItems(body).None? ==> r == Err(Message(ITEMS_NOT_OBJECT))
    ensures CountItems(body).Some? && !AllCounts(CountItems(body).value) ==> r == Err(Message(COUNT_NOT_U64))
    ensures r.Ok? <==> CountItems(body).Some? && AllCounts(CountItems(body).value)
    ensures r.Ok? ==> r.value == Some(ItemsTotal(CountItems(body).value))
  {
    match CountItems(body)
    case None => Err(Message(ITEMS_NOT_OBJECT))
    case Some(items) =>
      match CollectCounts(items)
      case None => Err(Message(COUNT_NOT_U64))
      case Some(counts) =>
        CollectedSumIsTotal(items);
        Ok(Some(Sum(counts)))
  }

  /** A body `{"counts": [c0, c1, {"items": {...}}, ...]}`. */
  function BodyWithItems(c0: Json, c1: Json, items: seq<Member>, more: seq<Json>): Json {
    Object([Member("counts", Array([c0, c1, Object([Member("items", Object(items))])] + more))])
  }

  lemma BodyWithItemsReachesItems(c0: Json, c1: Json, items: seq<Member>, more: seq<Json>)
    ensures CountItems(BodyWithItems(c0, c1, items, more)) == Some(items)
  {
  }

  /** The counts of two groups of members add up. */
  lemma {:induction false} ItemsTotalAppend(a: seq<Member>, b: seq<Member>)
    ensures ItemsTotal(a + b) == ItemsTotal(a) + ItemsTotal(b)
  {
    if |a| == 0 {
      assert a + b == b;
    } else {
      assert (a + b)[1..] == a[1..] + b;
      ItemsTotalAppend(a[1..], b);
    }
  }

  /** Taking one member out of the total leaves the total of the others. */
  lemma {:induction false} ItemsTotalRemove(m: seq<Member>, k: nat)
    requires k < |m|
    ensures ItemsTotal(m) == CountOf(m[k]) + ItemsTotal(m[..k] + m[k + 1..])
  {
    var pre, post := m[..k], m[k + 1..];
    var tail := [m[k]] + post;
    assert m == pre + tail;
    ItemsTotalAppend(pre, tail);
    assert tail[0] == m[k] && tail[1..] == post;
    assert ItemsTotal(tail) == CountOf(m[k]) + ItemsTotal(post);
    ItemsTotalAppend(pre, post);
  }

  /** The total does not depend on the order the members are listed in, so the object's
      iteration order does not matter. */
  lemma {:induction false} ItemsTotalPermutation(a: seq<Member>, b: seq<Member>)
    requires multiset(a) == multiset(b)
    ensures ItemsTotal(a) == ItemsTotal(b)
    decreases |a|
  {
    if |a| == 0 {
      assert |b| == |multiset(b)| == 0;
    } else {
      var x := a[0];
      assert multiset(a) == multiset{x} + multiset(a[1..]) by {
        assert a == [x] + a[1..];
      }
      assert x in multiset(b);
      var k :| 0 <= k < |b| && b[k] == x;
      var b' := b[..k] + b[k + 1..];
      MultisetRemove(b, k);
      ItemsTotalRemove(b, k);
      ItemsTotalPermutation(a[1..], b');
    }
  }

  lemma MultisetRemove(b: seq<Member>, k: nat)
    requires k < |b|
    ensures multiset(b[..k] + b[k + 1..]) == multiset(b) - multiset{b[k]}
  {
    assert b == b[..k] + [b[k]] + b[k + 1..];
  }

  /** One value that is not a `u64` makes the whole response an error, wherever it sits. */
  lemma OneBadCountFails(body: Json, k: nat)
    requires CountItems(body).Some? && k < |CountItems(body).value|
    requires AsU64(CountItems(body).value[k].value).None?
    ensures CountFromBody(body) == Err(Message(COUNT_NOT_U64))
  {
  }

  /** `{"counts":[{},{},{"items":{"a":3,"b":5}}]}` has 8 jobs. */
  lemma CountFromBodySumsItems()
    ensures CountFromBody(BodyWithItems(Object([]), Object([]),
      [Member("a", Num(Int(3))), Member("b", Num(Int(5)))], [])) == Ok(Some(8))
  {
    var items := [Member("a", Num(Int(3))), Member("b", Num(Int(5)))];
    BodyWithItemsReachesItems(Object([]), Object([]), items, []);
    assert AsU64(items[0].value) == Some(3) && AsU64(items[1].value) == Some(5);
    assert items[1..][1..] == [];
    assert ItemsTotal(items) == 8;
  }

  /** An empty `items` object has no jobs, which is a count of 0 and not "no count". */
  lemma CountFromBodyEmptyItems()
    ensures CountFromBody(BodyWithItems(Object([]), Object([]), [], [])) == Ok(Some(0))
  {
    BodyWithItemsReachesItems(Object([]), Object([]), [], []);
  }

  /** A string or a float among the counts is a shape error. */
  lemma CountFromBodyRejectsNonInteger(v: Json)
    requires v == Str("x") || v == Num(Float(3.0)) || v == Num(Int(-1))
    ensures CountFromBody(BodyWithItems(Object([]), Object([]), [Member("a", v)], [])) ==
      Err(Message(COUNT_NOT_U64))
  {
    BodyWithItemsReachesItems(Object([]), Object([]), [Member("a", v)], []);
    assert AsU64(v) == None;
    assert AsU64([Member("a", v)][0].value).None?;
  }

  /** A missing `counts` key, a `counts` with fewer than three entries, or an `items` that
      is not an object all end in the same shape error. */
  lemma CountFromBodyShapeErrors(items: Json)
    requires !items.Object?
    ensures CountFromBody(Object([])) == Err(Message(ITEMS_NOT_OBJECT))
    ensures CountFromBody(Object([Member("total", Num(Int(3)))])) == Err(Message(ITEMS_NOT_OBJECT))
    ensures CountFromBody(Object([Member("counts", Array([Object([]), Object([])]))])) == Err(Message(ITEMS_NOT_OBJECT))
    ensures CountFromBody(Object([Member("counts",
      Array([Object([]), Object([]), Object([Member("items", items)])]))])) == Err(Message(ITEMS_NOT_OBJECT))
    ensures CountFromBody(Array([])) == Err(Message(ITEMS_NOT_OBJECT))
  {
  }

  /** `SeekScraper::get_job_count`. `fetch` stands for the HTTP client and the JSON parser:
      it sends the GET request and reports the parsed body, or the transport or parse error. */
  function GetJobCount(title: string, fetch: string -> Result<Json, ScrapeError>): (r: JobCount)
    ensures r != Ok(None)
    ensures fetch(CountsUrl(title)).Err? ==> r == Err(fetch(CountsUrl(title)).error)
    ensures r.Ok? ==>
      var body := fetch(CountsUrl(title));
      body.Ok? && CountItems(body.value).Some? && AllCounts(CountItems(body.value).value) &&
      r.value == Some(ItemsTotal(CountItems(body.value).value))
    ensures fetch(CountsUrl(title)).Ok? ==>
      var body := fetch(CountsUrl(title)).value;
      && (r.Ok? <==> CountItems(body).Some? && AllCounts(CountItems(body).value))
      && (CountItems(body).None? ==> r == Err(Message(ITEMS_NOT_OBJECT)))
      && (CountItems(body).Some? && !AllCounts(CountItems(body).value) ==> r == Err(Message(COUNT_NOT_U64)))
  {
    match fetch(CountsUrl(title))
    case Err(e) => Err(e)
    case Ok(body) => CountFromBody(body)
  }
}
