/** The navigation helpers as pure functions of the current pathname: the
    product-detail path, the current-route test and the product-detail
    route test, which splits the pathname on '/' the way `String.split`
    does. */
module Navigation {
  import opened Text
  import opened Routes

  /** Number of occurrences of `c` in `s`. */
  function Count(s: string, c: char): nat {
    if |s| == 0 then 0 else (if s[0] == c then 1 else 0) + Count(s[1..], c)
  }

  /** `s.split(c)` for a one-character separator: the pieces between
      separators, including the empty ones at the ends. */
  function Split(s: string, c: char): (r: seq<string>)
    ensures |r| == Count(s, c) + 1
    ensures forall i :: 0 <= i < |r| ==> c !in r[i]
  {
    if |s| == 0 then [""]
    else
      var rest := Split(s[1..], c);
      if s[0] == c then [""] + rest
      else [[s[0]] + rest[0]] + rest[1..]
  }

  /** `parts.join(c)`. */
  function Join(parts: seq<string>, c: char): string
    requires |parts| > 0
  {
    if |parts| == 1 then parts[0] else parts[0] + [c] + Join(parts[1..], c)
  }

  /** Joining the pieces of a split gives the string back. */
  lemma {:induction false} JoinSplit(s: string, c: char)
    ensures Join(Split(s, c), c) == s
    decreases |s|
  {
    if |s| > 0 {
      JoinSplit(s[1..], c);
      var rest := Split(s[1..], c);
      if s[0] == c {
        assert ([""] + rest)[1..] == rest;
      } else {
        var r := [[s[0]] + rest[0]] + rest[1..];
        if |rest| > 1 {
          assert r[1..] == rest[1..];
        }
      }
    }
  }

  /** Splitting pieces that contain no separator, once joined, gives the
      pieces back. */
  lemma {:induction false} SplitJoin(parts: seq<string>, c: char)
    requires |parts| > 0 && forall i :: 0 <= i < |parts| ==> c !in parts[i]
    ensures Split(Join(parts, c), c) == parts
    decreases |parts|, |parts[0]|
  {
    if |parts| == 1 {
      NoSeparatorSplit(parts[0], c);
    } else if |parts[0]| == 0 {
      SplitJoin(parts[1..], c);
      var j := Join(parts, c);
      assert j == [c] + Join(parts[1..], c);
      assert j[1..] == Join(parts[1..], c);
    } else {
      var p := parts[0];
      var shorter := [p[1..]] + parts[1..];
      assert c !in p[1..];
      SplitJoin(shorter, c);
      assert shorter[1..] == parts[1..];
      var j := Join(parts, c);
      assert j == [p[0]] + Join(shorter, c);
      assert j[0] == p[0] && p[0] != c;
      assert j[1..] == Join(shorter, c);
      assert [p[0]] + p[1..] == p;
      assert parts == [p] + parts[1..];
    }
  }

  lemma {:induction false} NoSeparatorSplit(s: string, c: char)
    requires c !in s
    ensures Split(s, c) == [s]
    decreases |s|
  {
    if |s| > 0 {
      assert c !in s[1..] && s[0] != c;
      NoSeparatorSplit(s[1..], c);
      assert [s[0]] + s[1..] == s;
    }
  }

  /** `goToProductDetail(id)`: the products path, a slash, the id. */
  function ProductDetailPath(id: string): (r: string)
    ensures StartsWith(r, Path(Products))
    ensures |r| == |Path(Products)| + 1 + |id| && r[|Path(Products)| + 1..] == id
    ensures r[|Path(Products)|] == '/'
  {
    Path(Products) + "/" + id
  }

  /** `isCurrentRoute`: exact equality with the route's path. */
  predicate IsCurrentRoute(pathname: string, route: RouteName): (b: bool)
    ensures b ==> forall other: RouteName :: Path(other) == pathname ==> other == route
  {
    assert forall other: RouteName :: Path(other) == Path(route) ==> other == route by {
      forall other: RouteName | Path(other) == Path(route) ensures other == route {
        RouteTable(other, route);
      }
    }
    pathname == Path(route)
  }

  /** A route is current at its own path and at no other. */
  lemma CurrentAtOwnPath(route: RouteName, pathname: string)
    ensures IsCurrentRoute(Path(route), route)
    ensures pathname != Path(route) ==> !IsCurrentRoute(pathname, route)
  {
  }

  /** At most one route is current. */
  lemma OneCurrentRoute(pathname: string, a: RouteName, b: RouteName)
    requires IsCurrentRoute(pathname, a) && IsCurrentRoute(pathname, b)
    ensures a == b
  {
    RouteTable(a, b);
  }

  /** `isProductDetailRoute`: the pathname starts with the products path and
      splits into more than two pieces. */
  function IsProductDetailRoute(pathname: string): (r: bool)
    ensures r <==> StartsWith(pathname, "/produtos") && Count(pathname, '/') >= 2
  {
    StartsWith(pathname, Path(Products)) && |Split(pathname, '/')| > 2
  }

  lemma {:induction false} CountAppend(a: string, b: string, c: char)
    ensures Count(a + b, c) == Count(a, c) + Count(b, c)
    decreases |a|
  {
    if |a| == 0 {
      assert a + b == b;
    } else {
      assert (a + b)[1..] == a[1..] + b;
      CountAppend(a[1..], b, c);
    }
  }

  /** Every path `goToProductDetail` produces is recognised. */
  lemma DetailPathRecognised(id: string)
    ensures IsProductDetailRoute(ProductDetailPath(id))
  {
    DetailPathSlashes(id);
    assert StartsWith(ProductDetailPath(id), "/produtos");
  }

  /** A detail path holds at least two slashes: the products path's and
      the one before the id. */
  lemma DetailPathSlashes(id: string)
    ensures Count(ProductDetailPath(id), '/') >= 2
  {
    var p := Path(Products);
    assert ProductDetailPath(id) == p + ("/" + id);
    CountAppend(p, "/" + id, '/');
    assert Count(p, '/') >= 1 by {
      assert p == "/" + "produtos";
      CountAppend("/", "produtos", '/');
    }
    assert Count("/" + id, '/') >= 1 by {
      CountAppend("/", id, '/');
    }
  }

  lemma {:induction false} NoSeparatorCount(s: string, c: char)
    requires c !in s
    ensures Count(s, c) == 0
    decreases |s|
  {
    if |s| > 0 {
      assert c !in s[1..];
      NoSeparatorCount(s[1..], c);
    }
  }

  /** The count of slashes in slash-separated segments without slashes. */
  lemma SlashCount(a: string, b: string)
    requires '/' !in a && '/' !in b
    ensures Count("/" + a + "/" + b, '/') == 2
    ensures Count("/" + a, '/') == 1
  {
    NoSeparatorCount(a, '/');
    NoSeparatorCount(b, '/');
    CountAppend("/" + a, "/" + b, '/');
    CountAppend("/", a, '/');
    CountAppend("/", b, '/');
    assert "/" + a + "/" + b == ("/" + a) + ("/" + b);
  }

  /** The listing itself is not a detail page. */
  lemma ListingIsNotDetail()
    ensures !IsProductDetailRoute("/produtos")
  {
    SlashCount("produtos", "");
  }

  /** Any path of two slash-free segments whose first one starts with
      "produtos" is taken for a detail page. */
  lemma TwoSegmentsRecognised(a: string, b: string)
    requires '/' !in a && '/' !in b && StartsWith("/" + a, "/produtos")
    ensures IsProductDetailRoute("/" + a + "/" + b)
  {
    SlashCount(a, b);
    var x := "/" + a + "/" + b;
    assert x[..9] == ("/" + a)[..9];
  }

  /** The prefix test has no segment boundary: "/produtosx/y" counts as a
      detail page. */
  lemma PrefixWithoutBoundary()
    ensures IsProductDetailRoute("/produtosx/y")
  {
    var a := "produtosx";
    assert StartsWith("/" + a, "/produtos");
    TwoSegmentsRecognised(a, "y");
    assert "/" + a + "/" + "y" == "/produtosx/y";
  }

  /** An empty id still gives a recognised detail path. */
  lemma EmptyIdIsDetail()
    ensures IsProductDetailRoute("/produtos/")
  {
    DetailPathRecognised("");
    assert ProductDetailPath("") == "/produtos/";
  }

  /** Another route's sub-path is not a detail page. */
  lemma OtherRouteIsNotDetail()
    ensures !IsProductDetailRoute("/carrinho/1")
  {
    assert "/carrinho/1"[..9] != "/produtos" by {
      assert "/carrinho/1"[1] == 'c';
    }
  }
}
