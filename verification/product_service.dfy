/** The product service's request building and answer checking: the query
    of a product listing request, the query of the featured-products
    request, and the rules that turn an answer into data or an error. The
    query is an ordered list of key/value pairs. */
module ProductService {
  import opened Text
  import opened Wrappers
  import Navigation

  // ------------------------------------------------------ number to text

  function DigitChar(d: nat): (c: char)
    requires d < 10
    ensures IsDigit(c)
  {
    ('0' as int + d) as char
  }

  function DigitValue(c: char): nat
    requires IsDigit(c)
  {
    (c as int - '0' as int) as nat
  }

  /** The decimal digits of a natural number, without leading zeros. */
  function NatToString(n: nat): (r: string)
    ensures |r| > 0 && AllDigits(r)
    ensures |r| > 1 ==> r[0] != '0'
    decreases n
  {
    if n < 10 then [DigitChar(n)]
    else NatToString(n / 10) + [DigitChar(n % 10)]
  }

  /** `Number.prototype.toString` on an integer. */
  function IntToString(n: int): (r: string)
    ensures |r| > 0
    ensures n >= 0 ==> AllDigits(r)
    ensures n < 0 ==> r[0] == '-' && AllDigits(r[1..])
  {
    if n >= 0 then NatToString(n) else "-" + NatToString(-n)
  }

  /** Reads a string of decimal digits back as a number. */
  function ParseNat(s: string): nat
    requires AllDigits(s)
    decreases |s|
  {
    if |s| == 0 then 0 else ParseNat(s[..|s| - 1]) * 10 + DigitValue(s[|s| - 1])
  }

  function ParseInt(s: string): int
    requires |s| > 0
    requires (s[0] == '-' && AllDigits(s[1..])) || AllDigits(s)
  {
    if s[0] == '-' then 0 - ParseNat(s[1..]) as int else ParseNat(s)
  }

  lemma {:induction false} ParseNatToString(n: nat)
    ensures ParseNat(NatToString(n)) == n
    decreases n
  {
    if n >= 10 {
      ParseNatToString(n / 10);
      var s := NatToString(n);
      assert s[..|s| - 1] == NatToString(n / 10);
    }
  }

  /** Reading the text of an integer gives the integer back. */
  lemma IntToStringRoundTrip(n: int)
    ensures ParseInt(IntToString(n)) == n
  {
    if n >= 0 {
      ParseNatToString(n);
    } else {
      ParseNatToString(-n);
      assert IntToString(n)[1..] == NatToString(-n);
    }
  }

  // --------------------------------------------------------- query pairs

  datatype Pair = Pair(key: string, value: string)

  /** The optional filters of a listing request. `None` is an absent field. */
  datatype Params = Params(page: Option<int>, limit: Option<int>, category: Option<string>,
                           featured: Option<bool>, search: Option<string>)

  /** JavaScript truthiness of an optional number and an optional string. */
  predicate TruthyNum(x: Option<int>) { x.Some? && x.value != 0 }
  predicate TruthyText(x: Option<string>) { x.Some? && x.value != "" }

  /** The position of each key in the fixed order page, limit, category,
      featured, search. */
  function Rank(key: string): int {
    if key == "page" then 0 else if key == "limit" then 1 else if key == "category" then 2
    else if key == "featured" then 3 else if key == "search" then 4 else 5
  }

  /** `URLSearchParams.get`: the value of the first pair with that key. */
  function Get(q: seq<Pair>, key: string): Option<string> {
    if |q| == 0 then None else if q[0].key == key then Some(q[0].value) else Get(q[1..], key)
  }

  /** Keys strictly in the fixed order, hence each at most once. */
  predicate InKeyOrder(q: seq<Pair>) {
    forall i, j :: 0 <= i < j < |q| ==> Rank(q[i].key) < Rank(q[j].key)
  }

  /** One `if (...) queryParams.append(key, value)` of the builder. */
  datatype Slot = Slot(key: string, on: bool, value: string)

  /** The pairs of the slots that are on, in slot order. */
  function Appended(slots: seq<Slot>): seq<Pair> {
    if |slots| == 0 then []
    else (if slots[0].on then [Pair(slots[0].key, slots[0].value)] else []) + Appended(slots[1..])
  }

  predicate SlotsInOrder(slots: seq<Slot>) {
    forall i, j :: 0 <= i < j < |slots| ==> Rank(slots[i].key) < Rank(slots[j].key)
  }

  /** What a slot list decides for one key: the value of its slot when
      that slot is on. */
  function Decided(slots: seq<Slot>, key: string): Option<string> {
    if |slots| == 0 then None
    else if slots[0].key == key then (if slots[0].on then Some(slots[0].value) else None)
    else Decided(slots[1..], key)
  }

  /** The appended pairs keep the slots' key order and stay within their ranks. */
  lemma {:induction false} AppendedOrdered(slots: seq<Slot>, lo: int)
    requires SlotsInOrder(slots)
    requires forall i :: 0 <= i < |slots| ==> lo <= Rank(slots[i].key)
    ensures InKeyOrder(Appended(slots))
    ensures forall i :: 0 <= i < |Appended(slots)| ==> lo <= Rank(Appended(slots)[i].key)
    decreases |slots|
  {
    if |slots| > 0 {
      var rest := slots[1..];
      assert SlotsInOrder(rest) by {
        forall i, j | 0 <= i < j < |rest| ensures Rank(rest[i].key) < Rank(rest[j].key) {
          assert rest[i] == slots[i + 1] && rest[j] == slots[j + 1];
        }
      }
      var top := Rank(slots[0].key);
      forall i | 0 <= i < |rest| ensures top + 1 <= Rank(rest[i].key) {
        assert rest[i] == slots[i + 1];
      }
      AppendedOrdered(rest, top + 1);
    }
  }

  /** Looking a key up in the appended pairs gives what the slots decided. */
  lemma {:induction false} AppendedGet(slots: seq<Slot>, key: string)
    requires SlotsInOrder(slots)
    ensures Get(Appended(slots), key) == Decided(slots, key)
    decreases |slots|
  {
    if |slots| > 0 {
      var rest := slots[1..];
      assert SlotsInOrder(rest) by {
        forall i, j | 0 <= i < j < |rest| ensures Rank(rest[i].key) < Rank(rest[j].key) {
          assert rest[i] == slots[i + 1] && rest[j] == slots[j + 1];
        }
      }
      AppendedGet(rest, key);
      if slots[0].key == key && !slots[0].on {
        AbsentAfter(rest, key, Rank(slots[0].key));
      }
      var head := if slots[0].on then [Pair(slots[0].key, slots[0].value)] else [];
      if slots[0].on {
        assert (head + Appended(rest))[0] == head[0];
        assert (head + Appended(rest))[1..] == Appended(rest);
      } else {
        assert head + Appended(rest) == Appended(rest);
      }
    }
  }

  /** A key ranked no higher than every slot's rank does not occur in
      their appended pairs. */
  lemma {:induction false} AbsentAfter(slots: seq<Slot>, key: string, r: int)
    requires SlotsInOrder(slots) && Rank(key) == r
    requires forall i :: 0 <= i < |slots| ==> r < Rank(slots[i].key)
    ensures Get(Appended(slots), key) == None
  {
    AppendedOrdered(slots, r + 1);
    GetAbsent(Appended(slots), key);
  }

  lemma {:induction false} GetAbsent(q: seq<Pair>, key: string)
    requires forall i :: 0 <= i < |q| ==> Rank(key) < Rank(q[i].key)
    ensures Get(q, key) == None
    decreases |q|
  {
    if |q| > 0 {
      GetAbsent(q[1..], key);
    }
  }

  /** The five checks of `getProducts`, in the order the code makes them. */
  function ListingSlots(p: Params): seq<Slot> {
    [ Slot("page", TruthyNum(p.page), if p.page.Some? then IntToString(p.page.value) else ""),
      Slot("limit", TruthyNum(p.limit), if p.limit.Some? then IntToString(p.limit.value) else ""),
      Slot("category", TruthyText(p.category), if p.category.Some? then p.category.value else ""),
      Slot("featured", p.featured == Some(true), "true"),
      Slot("search", TruthyText(p.search), if p.search.Some? then p.search.value else "") ]
  }

  /** The pairs `getProducts` appends: each field only when truthy, in the
      fixed order page, limit, category, featured, search. */
  function ListingQuery(p: Params): (r: seq<Pair>)
    ensures InKeyOrder(r)
    ensures forall i :: 0 <= i < |r| ==> Rank(r[i].key) < 5
    ensures Get(r, "page") == (if TruthyNum(p.page) then Some(IntToString(p.page.value)) else None)
    ensures Get(r, "limit") == (if TruthyNum(p.limit) then Some(IntToString(p.limit.value)) else None)
    ensures Get(r, "category") == (if TruthyText(p.category) then Some(p.category.value) else None)
    ensures Get(r, "featured") == (if p.featured == Some(true) then Some("true") else None)
    ensures Get(r, "search") == (if TruthyText(p.search) then Some(p.search.value) else None)
  {
    var slots := ListingSlots(p);
    assert SlotsInOrder(slots);
    AppendedOrdered(slots, 0);
    AppendedBelow(slots, 5);
    ListingPageLimit(p);
    ListingOthers(p);
    Appended(slots)
  }

  /** How the page and limit checks decide the query. */
  lemma ListingPageLimit(p: Params)
    ensures var q := Appended(ListingSlots(p));
      && Get(q, "page") == (if TruthyNum(p.page) then Some(IntToString(p.page.value)) else None)
      && Get(q, "limit") == (if TruthyNum(p.limit) then Some(IntToString(p.limit.value)) else None)
  {
    var slots := ListingSlots(p);
    assert SlotsInOrder(slots);
    AppendedGet(slots, "page");
    AppendedGet(slots, "limit");
  }

  /** How the category, featured and search checks decide the query. */
  lemma ListingOthers(p: Params)
    ensures var q := Appended(ListingSlots(p));
      && Get(q, "category") == (if TruthyText(p.category) then Some(p.category.value) else None)
      && Get(q, "featured") == (if p.featured == Some(true) then Some("true") else None)
      && Get(q, "search") == (if TruthyText(p.search) then Some(p.search.value) else None)
  {
    var slots := ListingSlots(p);
    assert SlotsInOrder(slots);
    AppendedGet(slots, "category");
    AppendedGet(slots, "featured");
    AppendedGet(slots, "search");
    DecidedAt(slots, 2);
    DecidedAt(slots, 3);
    DecidedAt(slots, 4);
  }

  /** The decision for the key of slot `k`, when no earlier slot has that key. */
  lemma {:induction false} DecidedAt(slots: seq<Slot>, k: nat)
    requires k < |slots| && forall j :: 0 <= j < k ==> slots[j].key != slots[k].key
    ensures Decided(slots, slots[k].key) == if slots[k].on then Some(slots[k].value) else None
    decreases k
  {
    if k > 0 {
      assert slots[1..][k - 1] == slots[k];
      DecidedAt(slots[1..], k - 1);
    }
  }

  lemma {:induction false} AppendedBelow(slots: seq<Slot>, hi: int)
    requires forall i :: 0 <= i < |slots| ==> Rank(slots[i].key) < hi
    ensures forall i :: 0 <= i < |Appended(slots)| ==> Rank(Appended(slots)[i].key) < hi
    decreases |slots|
  {
    if |slots| > 0 {
      AppendedBelow(slots[1..], hi);
    }
  }

  /** Neither a page or limit of 0, nor featured = false, nor an empty
      category or search adds anything: such a request has no query. */
  lemma FalsyFieldsOmitted(featured: Option<bool>)
    requires featured != Some(true)
    ensures ListingQuery(Params(Some(0), Some(0), Some(""), featured, Some(""))) == []
    ensures ListingQuery(Params(None, None, None, None, None)) == []
  {
  }

  /** The "key=value" text of each pair. */
  function Pieces(q: seq<Pair>): (r: seq<string>)
    ensures |r| == |q|
    ensures forall i :: 0 <= i < |q| ==> r[i] == q[i].key + "=" + q[i].value
  {
    seq(|q|, i requires 0 <= i < |q| => q[i].key + "=" + q[i].value)
  }

  /** `queryParams.toString()` before percent-encoding: the "key=value"
      pieces joined with '&'; no pairs give the empty string. */
  function Encode(q: seq<Pair>): (r: string)
    ensures r == "" <==> |q| == 0
  {
    if |q| == 0 then ""
    else q[0].key + "=" + q[0].value + (if |q| > 1 then "&" + Encode(q[1..]) else "")
  }

  /** The written query is its "key=value" pieces joined with '&'. */
  lemma {:induction false} EncodeIsJoin(q: seq<Pair>)
    requires |q| > 0
    ensures Encode(q) == Navigation.Join(Pieces(q), '&')
    decreases |q|
  {
    if |q| > 1 {
      EncodeIsJoin(q[1..]);
      assert Pieces(q)[1..] == Pieces(q[1..]);
    }
  }

  /** Reads one piece the way `URLSearchParams` does: the key runs up to the
      first '=', the value is everything after it. */
  function ReadPair(piece: string): Pair {
    var parts := Navigation.Split(piece, '=');
    if |parts| == 1 then Pair(parts[0], "") else Pair(parts[0], Navigation.Join(parts[1..], '='))
  }

  /** Reads a query string back into its pairs, in order. */
  function Decode(s: string): (r: seq<Pair>)
    ensures s == "" ==> r == []
    ensures s != "" ==> |r| == |Navigation.Split(s, '&')|
    ensures s != "" ==> forall i :: 0 <= i < |r| ==> r[i] == ReadPair(Navigation.Split(s, '&')[i])
  {
    if s == "" then []
    else
      var pieces := Navigation.Split(s, '&');
      seq(|pieces|, i requires 0 <= i < |pieces| => ReadPair(pieces[i]))
  }

  /** A key without '=' reads back with its whole value, even a value that
      holds '=' itself. */
  lemma ReadPairRoundTrip(k: string, v: string)
    requires '=' !in k
    ensures ReadPair(k + "=" + v) == Pair(k, v)
  {
    var vs := Navigation.Split(v, '=');
    Navigation.JoinSplit(v, '=');
    var parts := [k] + vs;
    assert parts[1..] == vs;
    assert Navigation.Join(parts, '=') == k + "=" + v;
    Navigation.SplitJoin(parts, '=');
  }

  /** Keys free of '&' and '=' and values free of '&' survive encoding and
      reading back. */
  lemma EncodeDecode(q: seq<Pair>)
    requires forall i :: 0 <= i < |q| ==> '&' !in q[i].key && '=' !in q[i].key && '&' !in q[i].value
    ensures Decode(Encode(q)) == q
  {
    if |q| > 0 {
      var e := Encode(q);
      var d := Decode(e);
      var p := Pieces(q);
      assert e != "";
      assert Navigation.Split(e, '&') == p by { SplitEncode(q); }
      assert |d| == |q|;
      forall i | 0 <= i < |q| ensures d[i] == q[i] {
        assert d[i] == ReadPair(p[i]);
        ReadPairRoundTrip(q[i].key, q[i].value);
      }
    }
  }

  /** Splitting the encoded text on '&' gives back its pieces. */
  lemma SplitEncode(q: seq<Pair>)
    requires |q| > 0
    requires forall i :: 0 <= i < |q| ==> '&' !in q[i].key && '&' !in q[i].value
    ensures Navigation.Split(Encode(q), '&') == Pieces(q)
  {
    var p := Pieces(q);
    assert forall i :: 0 <= i < |p| ==> '&' !in p[i];
    EncodeIsJoin(q);
    Navigation.SplitJoin(p, '&');
  }

  /** A request for page 2, eight per page, of featured rings. */
  lemma ListingExample()
    ensures ListingQuery(Params(Some(2), Some(8), Some("aneis"), Some(true), None))
      == [Pair("page", "2"), Pair("limit", "8"), Pair("category", "aneis"), Pair("featured", "true")]
  {
    assert IntToString(2) == "2";
    assert IntToString(8) == "8";
  }

  lemma EncodeExample()
    ensures Encode([Pair("page", "2"), Pair("limit", "8"), Pair("featured", "true")])
      == "page=2&limit=8&featured=true"
  {
    var q := [Pair("page", "2"), Pair("limit", "8"), Pair("featured", "true")];
    assert q[1..][1..] == [Pair("featured", "true")];
  }

  /** `getFeaturedProducts`: "?limit=N" when the limit is truthy, else nothing. */
  function FeaturedQuery(limit: Option<int>): (r: string)
    ensures r == "" <==> !TruthyNum(limit)
    ensures r != "" ==> StartsWith(r, "?limit=") && |r| > 7
  {
    if TruthyNum(limit) then "?limit=" + IntToString(limit.value) else ""
  }

  /** The limit can be read back from the featured query. */
  lemma FeaturedQueryRoundTrip(limit: Option<int>)
    requires TruthyNum(limit)
    ensures var q := FeaturedQuery(limit);
      var t := q[7..];
      t == IntToString(limit.value) && ParseInt(t) == limit.value
  {
    IntToStringRoundTrip(limit.value);
  }

  // ----------------------------------------------------- answer checking

  /** An answer of the API: its `success` flag, its `data` (absent or null
      is `None`; an empty list is present, being truthy) and its `error`. */
  datatype Reply<T> = Reply(success: bool, data: Option<T>, error: string)

  /** `getProducts`: only the `success` flag is checked, and the whole
      answer is returned. */
  function CheckListing<T>(reply: Reply<T>): (r: Result<Reply<T>, string>)
    ensures r.Ok? <==> reply.success
    ensures r.Ok? ==> r.value == reply
    ensures r.Err? ==> r.error != "" && (reply.error != "" ==> r.error == reply.error)
  {
    if !reply.success then Err(if reply.error == "" then "Erro ao buscar produtos" else reply.error)
    else Ok(reply)
  }

  /** `getProductById`, `getFeaturedProducts` and `getCategories`: both
      `success` and `data` are required; the error is the answer's own or
      the call's default message. */
  function CheckData<T>(reply: Reply<T>, default: string): (r: Result<T, string>)
    requires default != ""
    ensures r.Ok? <==> reply.success && reply.data.Some?
    ensures r.Ok? ==> r.value == reply.data.value
    ensures r.Err? ==> r.error != "" && r.error == (if reply.error == "" then default else reply.error)
  {
    if !reply.success || reply.data.None? then Err(if reply.error == "" then default else reply.error)
    else Ok(reply.data.value)
  }

  const ProductNotFound: string := "Produto não encontrado"
  const FeaturedFailed: string := "Erro ao buscar produtos em destaque"
  const CategoriesFailed: string := "Erro ao buscar categorias"

  /** A successful answer without data is still an error for a product
      lookup, while a listing accepts it. */
  lemma MissingDataDiffers<T>(reply: Reply<T>)
    requires reply.success && reply.data.None?
    ensures CheckData(reply, ProductNotFound) == Err(if reply.error == "" then ProductNotFound else reply.error)
    ensures CheckListing(reply) == Ok(reply)
  {
  }
}
