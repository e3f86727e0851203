/** The backend's product search: the `/predict` route, its variant matcher, the
    product <-> id encoding, the add-on guard, popularity counts and the per-variant record.
    The merged product/transaction frame is given as a sequence of rows; the fuzzy matcher
    (`difflib.get_close_matches`) and the embedding ranking are opaque collaborators whose
    results are parameters. */
module ProductApi {
  import opened Wrappers
  import opened Seqs
  import opened Text

  /** `top_k` of the route's add-on lookup. */
  const TOP_K: nat := 5

  /** Cell values (after strip and lower) that mark a product as zero-waste. */
  const ZERO_WASTE_WORDS: seq<string> := ["yes", "true", "1", "zero-waste"]

  const MISSING_QUERY: string := "missing query"

  /** One row of the merged frame `df`: its "Product Description", "Product ID", "Amount"
      and "Zero-waste?" cells. */
  datatype Row = Row(description: string, productId: string, amount: real, zeroWasteCell: string)

  /** The merged frame; `hasAmount` says whether it has an "Amount" column at all. */
  datatype Catalog = Catalog(rows: seq<Row>, hasAmount: bool)

  /** One element of the response's `results`. */
  datatype Record = Record(
    product: string,
    productId: string,
    sales: real,
    zeroWaste: bool,
    popularity: nat,
    suggestedAddons: seq<string>)

  datatype Response =
    | Ok(query: string, results: seq<Record>)   // 200
    | BadRequest(error: string)                 // 400
    | NotFound(message: string)                 // 404
  {
    function StatusCode(): int {
      match this
      case Ok(_, _) => 200
      case BadRequest(_) => 400
      case NotFound(_) => 404
    }
  }

  /** The "Product Description" column. */
  function Descriptions(rows: seq<Row>): seq<string> {
    seq(|rows|, i requires 0 <= i < |rows| => rows[i].description)
  }

  /** The frame as loaded: every description is already lower-cased and stripped (line 19). */
  predicate Normalised(c: Catalog) {
    forall i :: 0 <= i < |c.rows| ==> c.rows[i].description == Strip(Lower(c.rows[i].description))
  }

  /** Line 19: `.str.lower().str.strip()` on the "Product Description" column; the other
      columns are kept. */
  function Normalise(c: Catalog): (r: Catalog)
    ensures Normalised(r)
    ensures r.hasAmount == c.hasAmount && |r.rows| == |c.rows|
    ensures forall i :: 0 <= i < |c.rows| ==>
      r.rows[i].description == Strip(Lower(c.rows[i].description))
      && r.rows[i].productId == c.rows[i].productId
      && r.rows[i].amount == c.rows[i].amount
      && r.rows[i].zeroWasteCell == c.rows[i].zeroWasteCell
  {
    var rows := seq(|c.rows|, i requires 0 <= i < |c.rows| =>
      c.rows[i].(description := Strip(Lower(c.rows[i].description))));
    forall i | 0 <= i < |rows| ensures rows[i].description == Strip(Lower(rows[i].description)) {
      StripLowerNormal(c.rows[i].description);
    }
    Catalog(rows, c.hasAmount)
  }

  /** `unique_products`: the distinct descriptions in first-occurrence order. */
  function UniqueProducts(c: Catalog): (u: seq<string>)
    ensures Distinct(u)
  {
    Unique(Descriptions(c.rows))
  }

  // ---------------------------------------------------------------- id encoding

  /** `product_to_id = {p: i for i, p in enumerate(unique_products)}`. */
  function ProductToId(u: seq<string>): (m: map<string, nat>)
    requires Distinct(u)
    ensures forall p :: p in m <==> p in u
    ensures forall p :: p in m ==> m[p] < |u| && u[m[p]] == p
  {
    map i | 0 <= i < |u| :: u[i] := i
  }

  predicate InjectiveIds(m: map<string, nat>) {
    forall p, q :: p in m && q in m && p != q ==> m[p] != m[q]
  }

  /** `id_to_product = {i: p for p, i in product_to_id.items()}`. */
  function IdToProduct(m: map<string, nat>): (r: map<nat, string>)
    requires InjectiveIds(m)
    ensures forall i :: i in r <==> exists p :: p in m && m[p] == i
    ensures forall p :: p in m ==> m[p] in r && r[m[p]] == p
  {
    map p | p in m :: m[p] := p
  }

  /** The encoding numbers the n distinct products 0..n-1 in first-occurrence order, and
      `id_to_product` is its inverse in both directions. */
  lemma {:induction false} IdEncodingIsBijection(u: seq<string>)
    requires Distinct(u)
    ensures InjectiveIds(ProductToId(u))
    ensures var ids := ProductToId(u); var names := IdToProduct(ids);
      && (forall i :: i in names <==> 0 <= i < |u|)
      && (forall i :: 0 <= i < |u| ==> names[i] == u[i] && ids[names[i]] == i)
      && (forall p :: p in ids ==> names[ids[p]] == p)
  {
    var ids := ProductToId(u);
    forall i | 0 <= i < |u| ensures ids[u[i]] == i {
    }
    var names := IdToProduct(ids);
    forall i: nat | 0 <= i < |u| ensures i in names && names[i] == u[i] {
      assert ids[u[i]] == i;
    }
  }

  /** The products of a catalog get ids 0..n-1, where n is the number of distinct descriptions. */
  lemma CatalogIds(c: Catalog)
    ensures var u := UniqueProducts(c);
      forall p :: p in ProductToId(u) <==> exists i :: 0 <= i < |c.rows| && c.rows[i].description == p
  {
    var d := Descriptions(c.rows);
    forall p ensures p in d <==> exists i :: 0 <= i < |c.rows| && c.rows[i].description == p {
      if p in d {
        var i :| 0 <= i < |d| && d[i] == p;
        assert c.rows[i].description == p;
      }
      if exists i :: 0 <= i < |c.rows| && c.rows[i].description == p {
        var i :| 0 <= i < |c.rows| && c.rows[i].description == p;
        assert d[i] == p;
      }
    }
  }

  // ---------------------------------------------------------------- matching

  /** The substring test of `find_similar_names`: the query occurs in the lower-cased name,
      or in that name with '-' replaced by ' '. */
  function IsSubstringVariant(query: string, product: string): (b: bool)
    ensures var q, p := Lower(query), Lower(product);
      b <==> exists i :: OccursAt(p, q, i) || OccursAt(HyphensToSpaces(p), q, i)
  {
    var q, p := Lower(query), Lower(product);
    ContainsIffOccurs(p, q);
    ContainsIffOccurs(HyphensToSpaces(p), q);
    Contains(p, q) || Contains(HyphensToSpaces(p), q)
  }

  /** The list comprehension `matches` of `find_similar_names`. */
  function SubstringMatches(query: string, products: seq<string>): (r: seq<string>)
    ensures |r| <= |products|
    ensures forall p :: p in r <==> p in products && IsSubstringVariant(query, p)
  {
    Filter(products, (p: string) => IsSubstringVariant(query, p))
  }

  /** `find_similar_names`: the set union of the substring matches and the fuzzy matches,
      where `closeMatches` is what `get_close_matches` returned for this query. */
  function FindSimilarNames(query: string, products: seq<string>, closeMatches: seq<string>): (r: set<string>)
    ensures forall p :: p in r <==> (p in products && IsSubstringVariant(query, p)) || p in closeMatches
  {
    var matches := SubstringMatches(query, products);
    (set p | p in matches) + (set p | p in closeMatches)
  }

  /** A hyphenated name matches the query that spells the hyphen as a space. */
  lemma HyphenatedNameMatches()
    ensures IsSubstringVariant("oat milk", "oat-milk")
  {
    assert Lower("oat milk") == "oat milk";
    assert Lower("oat-milk") == "oat-milk";
    assert HyphensToSpaces("oat-milk") == "oat milk";
    assert IsPrefix("oat milk", HyphensToSpaces("oat-milk"));
  }

  // ---------------------------------------------------------------- per-variant record

  /** `popularity.get(v, 0)` where `popularity` is `value_counts` of the description column. */
  function Popularity(c: Catalog, v: string): (n: nat)
    ensures n == multiset(Descriptions(c.rows))[v]
  {
    var d := Descriptions(c.rows);
    var counts := map p | p in d :: multiset(d)[p];
    if v in counts then counts[v] else 0
  }

  /** `get_similar_products(v, top_k)`: an unknown product has no add-ons; otherwise the
      products ranked 2nd to (top_k + 1)th by embedding similarity, `ranked` being all products
      in decreasing similarity to `v` (itself first). */
  function SimilarProducts(v: string, ids: map<string, nat>, ranked: seq<string>, topK: nat): (r: seq<string>)
    ensures v !in ids ==> r == []
    ensures |r| <= topK
    ensures v in ids ==> |r| == (if |ranked| <= 1 then 0 else if |ranked| - 1 < topK then |ranked| - 1 else topK)
    ensures forall i :: 0 <= i < |r| ==> i + 1 < |ranked| && r[i] == ranked[i + 1]
  {
    if v !in ids || |ranked| <= 1 then []
    else ranked[1..if |ranked| < topK + 1 then |ranked| else topK + 1]
  }

  /** `df[df["Product Description"] == v].head(1)`. */
  function FirstRow(rows: seq<Row>, v: string): (r: Option<Row>)
    ensures r.None? <==> forall i :: 0 <= i < |rows| ==> rows[i].description != v
    ensures r.Some? ==> r.value in rows && r.value.description == v
    ensures r.Some? ==>
      exists k :: 0 <= k < |rows| && rows[k] == r.value && forall j :: 0 <= j < k ==> rows[j].description != v
  {
    if rows == [] then None
    else if rows[0].description == v then Some(rows[0])
    else FirstRow(rows[1..], v)
  }

  /** The "Zero-waste?" cell, stripped and lower-cased, is one of the accepted words. */
  predicate ZeroWaste(cell: string) {
    Lower(Strip(cell)) in ZERO_WASTE_WORDS
  }

  /** A cell is zero-waste exactly when the stripped cell spells one of the accepted words
      letter by letter, ignoring letter case. */
  lemma ZeroWasteSpelling(cell: string)
    ensures var t := Strip(cell);
      ZeroWaste(cell) <==>
        exists w :: w in ZERO_WASTE_WORDS && |w| == |t| && forall i :: 0 <= i < |w| ==> LowerChar(t[i]) == w[i]
  {
    var t := Strip(cell);
    var u := Lower(t);
    assert forall w :: |w| == |t| && (forall i :: 0 <= i < |w| ==> LowerChar(t[i]) == w[i]) ==> w == u;
  }

  lemma ZeroWastePaddedYes()
    ensures ZeroWaste(" Yes ")
  {
    assert LeadingSpaces(" Yes ") == 1;
    assert TrailingSpaces("Yes ") == 1;
    assert Strip(" Yes ") == "Yes";
    assert Lower("Yes") == "yes";
  }

  /** The accepted words match in any letter case. */
  lemma ZeroWasteWordsInAnyCase()
    ensures ZeroWaste("TRUE") && ZeroWaste("Zero-Waste")
  {
    StripPlain("TRUE");
    assert Lower("TRUE") == "true";
    StripPlain("Zero-Waste");
    assert Lower("Zero-Waste") == "zero-waste";
  }

  lemma NotZeroWaste()
    ensures !ZeroWaste("no") && !ZeroWaste("")
  {
    assert Strip("no") == "no";
    assert Lower("no") == "no";
  }

  /** The body of the route's loop for one variant `v`. */
  function RecordFor(c: Catalog, v: string, ranking: string -> seq<string>): (r: Record)
    ensures r.product == v
    ensures r.popularity == multiset(Descriptions(c.rows))[v]
    ensures r.suggestedAddons == SimilarProducts(v, ProductToId(UniqueProducts(c)), ranking(v), TOP_K)
    ensures FirstRow(c.rows, v).Some? ==> var row := FirstRow(c.rows, v).value;
      && row.description == v
      && r.productId == row.productId
      && r.sales == (if c.hasAmount then row.amount else 0.0)
      && (r.zeroWaste <==> Lower(Strip(row.zeroWasteCell)) in ZERO_WASTE_WORDS)
  {
    var pop := Popularity(c, v);
    var addons := SimilarProducts(v, ProductToId(UniqueProducts(c)), ranking(v), TOP_K);
    match FirstRow(c.rows, v)
    case Some(row) =>
      Record(v, row.productId, if c.hasAmount then row.amount else 0.0, ZeroWaste(row.zeroWasteCell), pop, addons)
    case None =>
      Record(v, "", 0.0, false, pop, addons)
  }

  /** A variant with no row in the frame gets the defaults, and its popularity is 0
      because no row names it. */
  lemma MissingRowDefaults(c: Catalog, v: string, ranking: string -> seq<string>)
    requires FirstRow(c.rows, v).None?
    ensures var r := RecordFor(c, v, ranking);
      r.product == v && r.productId == "" && r.sales == 0.0 && !r.zeroWaste && r.popularity == 0
  {
    assert v !in Descriptions(c.rows);
  }

  /** A variant that is not one of the catalog's products gets no add-ons. */
  lemma UnknownProductHasNoAddons(c: Catalog, v: string, ranking: string -> seq<string>)
    requires forall i :: 0 <= i < |c.rows| ==> c.rows[i].description != v
    ensures RecordFor(c, v, ranking).suggestedAddons == []
  {
    assert v !in Descriptions(c.rows);
  }

  // ---------------------------------------------------------------- the route

  /** `data.get("query", "").strip().lower()`. */
  function NormalizeQuery(query: Option<string>): (q: string)
    ensures query.None? ==> q == []
    ensures q == [] || (!IsSpace(q[0]) && !IsSpace(q[|q| - 1]))
    ensures forall i :: 0 <= i < |q| ==> !('A' <= q[i] <= 'Z')
    ensures Lower(Strip(q)) == q
    ensures q == [] <==> query.None? || forall i :: 0 <= i < |query.value| ==> IsSpace(query.value[i])
  {
    LowerStripIdempotent(query.GetOr(""));
    StripIsInnerSlice(query.GetOr(""));
    Lower(Strip(query.GetOr("")))
  }

  /** The normalised query is the query's text between its leading and trailing white space,
      lower-cased character by character. */
  lemma NormalizeQueryKeepsText(query: Option<string>)
    ensures var s, q := query.GetOr(""), NormalizeQuery(query); var a := LeadingSpaces(s);
      && a + |q| <= |s|
      && (forall i :: 0 <= i < |q| ==> q[i] == LowerChar(s[a + i]))
      && (forall i :: 0 <= i < a ==> IsSpace(s[i]))
      && (forall i :: a + |q| <= i < |s| ==> IsSpace(s[i]))
  {
    var s := query.GetOr("");
    var a, t := LeadingSpaces(s), Strip(s);
    StripIsInnerSlice(s);
    assert NormalizeQuery(query) == Lower(t);
    forall i | 0 <= i < |t| ensures Lower(t)[i] == LowerChar(s[a + i]) {
      assert t[i] == s[a + i];
    }
  }

  /** `get_close_matches` returns entries of the lower-cased product list it is given. */
  predicate FromProducts(c: Catalog, closeMatches: seq<string>) {
    forall m :: m in closeMatches ==> exists p :: p in UniqueProducts(c) && m == Lower(p)
  }

  /** Every variant names a row of the loaded frame when the fuzzy matches are drawn from the
      lower-cased product list, as `get_close_matches` returns them; so in the route a record
      always comes from a row and never takes the defaults. */
  lemma VariantsHaveRows(c: Catalog, q: string, closeMatches: seq<string>)
    requires Normalised(c) && FromProducts(c, closeMatches)
    ensures forall v :: v in Variants(c, q, closeMatches) ==> FirstRow(c.rows, v).Some?
  {
    forall v | v in Variants(c, q, closeMatches) ensures FirstRow(c.rows, v).Some? {
      if v in UniqueProducts(c) {
        DescriptionHasRow(c, v);
      } else {
        assert v in closeMatches;
        var p :| p in UniqueProducts(c) && v == Lower(p);
        DescriptionHasRow(c, p);
      }
    }
  }

  /** Every record was built from a catalogue row of its product. */
  predicate FromRows(c: Catalog, results: seq<Record>) {
    forall i :: 0 <= i < |results| ==> FirstRow(c.rows, results[i].product).Some?
  }

  /** In a loaded frame, the records of an OK answer, whose products are exactly the variants
      as `Predict` ensures, all come from rows. */
  lemma RecordsHaveRows(c: Catalog, q: string, closeMatches: seq<string>, results: seq<Record>)
    requires Normalised(c) && FromProducts(c, closeMatches)
    requires forall p :: p in Products(results) <==> p in Variants(c, q, closeMatches)
    ensures FromRows(c, results)
  {
    VariantsHaveRows(c, q, closeMatches);
    forall i | 0 <= i < |results| ensures FirstRow(c.rows, results[i].product).Some? {
      assert results[i].product == Products(results)[i];
    }
  }

  /** In a loaded frame a description is its own lower-cased form and names a row. */
  lemma DescriptionHasRow(c: Catalog, p: string)
    requires Normalised(c)
    requires p in UniqueProducts(c)
    ensures Lower(p) == p && FirstRow(c.rows, p).Some?
  {
    var d := Descriptions(c.rows);
    assert p in d;
    var i :| 0 <= i < |d| && d[i] == p;
    assert c.rows[i].description == p;
    StripLowerNormal(p);
  }

  function Variants(c: Catalog, q: string, closeMatches: seq<string>): set<string> {
    FindSimilarNames(q, UniqueProducts(c), closeMatches)
  }

  function Products(results: seq<Record>): seq<string> {
    seq(|results|, i requires 0 <= i < |results| => results[i].product)
  }

  /** The route's loop: one record per variant, in the order of `variants`. */
  method BuildResults(c: Catalog, variants: seq<string>, ranking: string -> seq<string>) returns (results: seq<Record>)
    ensures Products(results) == variants
    ensures forall i :: 0 <= i < |results| ==> results[i] == RecordFor(c, variants[i], ranking)
  {
    results := [];
    for i := 0 to |variants|
      invariant |results| == i
      invariant forall j :: 0 <= j < i ==> results[j] == RecordFor(c, variants[j], ranking)
    {
      results := results + [RecordFor(c, variants[i], ranking)];
    }
  }

  /** The `/predict` route. `query` is the request's "query" member (None when absent),
      `closeMatches` what `get_close_matches` returns for it, `ranking` the embedding order. */
  method Predict(c: Catalog, query: Option<string>, closeMatches: seq<string>, ranking: string -> seq<string>)
    returns (resp: Response)
    ensures var q := NormalizeQuery(query);
      && (resp.BadRequest? <==> q == [])
      && (resp.BadRequest? ==> resp == BadRequest(MISSING_QUERY) && resp.StatusCode() == 400)
      && (resp.NotFound? <==> q != [] && Variants(c, q, closeMatches) == {})
      && (resp.NotFound? ==> resp.message == "no matches for '" + q + "'" && resp.StatusCode() == 404)
    ensures resp.Ok? ==>
      && resp.query == NormalizeQuery(query)
      && Distinct(Products(resp.results))
      && (forall p :: p in Products(resp.results) <==> p in Variants(c, resp.query, closeMatches))
      && (forall i :: 0 <= i < |resp.results| ==> resp.results[i] == RecordFor(c, resp.results[i].product, ranking))
  {
    var q := NormalizeQuery(query);
    if q == [] {
      return BadRequest(MISSING_QUERY);
    }
    var found := FindSimilarNames(q, UniqueProducts(c), closeMatches);
    if found == {} {
      return NotFound("no matches for '" + q + "'");
    }
    var variants := ListOfSet(found);
    var results := BuildResults(c, variants, ranking);
    resp := Ok(q, results);
  }
}
