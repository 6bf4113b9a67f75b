/** The route table: the seven paths, the two public ones, and the title
    shown for each path. */
module Routes {

  /** The keys of `ROUTES`. */
  datatype RouteName = Login | Register | Home | Products | Profile | Cart | Orders

  const AllRoutes: seq<RouteName> := [Login, Register, Home, Products, Profile, Cart, Orders]

  /** The path each key of `ROUTES` maps to. */
  function Path(r: RouteName): string {
    match r
    case Login => "/login"
    case Register => "/register"
    case Home => "/"
    case Products => "/produtos"
    case Profile => "/perfil"
    case Cart => "/carrinho"
    case Orders => "/pedidos"
  }

  /** Every key is listed, and no two keys share a path. */
  lemma RouteTable(r: RouteName, s: RouteName)
    ensures r in AllRoutes
    ensures Path(r) == Path(s) <==> r == s
  {
  }

  /** `isPublicRoute`: membership of the pathname, by exact string
      equality, in the list of the login and register paths. */
  function IsPublicRoute(pathname: string): (r: bool)
    ensures r <==> pathname == "/login" || pathname == "/register"
  {
    pathname in [Path(Login), Path(Register)]
  }

  /** `isProtectedRoute`: every other string, including paths that are not
      routes at all. */
  function IsProtectedRoute(pathname: string): (r: bool)
    ensures r <==> pathname != "/login" && pathname != "/register"
  {
    !IsPublicRoute(pathname)
  }

  /** Exactly one of the two predicates holds for any string. */
  lemma PublicXorProtected(pathname: string)
    ensures IsPublicRoute(pathname) != IsProtectedRoute(pathname)
  {
  }

  /** Every route other than login and register is protected. */
  lemma ProtectedRoutes(r: RouteName)
    ensures IsProtectedRoute(Path(r)) <==> r != Login && r != Register
  {
  }

  /** A trailing slash or a different case is not a public path. */
  lemma PublicIsExact()
    ensures IsProtectedRoute("/login/") && IsProtectedRoute("/Login") && IsProtectedRoute("")
  {
  }

  /** `ROUTE_TITLES`, keyed by path. */
  const RouteTitles: map<string, string> := map[
    "/" := "Início",
    "/produtos" := "Produtos",
    "/perfil" := "Meu Perfil",
    "/carrinho" := "Carrinho",
    "/pedidos" := "Meus Pedidos",
    "/login" := "Login",
    "/register" := "Cadastro"
  ]

  /** The title table has an entry for every route and for nothing else. */
  lemma TitlesCoverRoutes()
    ensures RouteTitles.Keys == set r | r in AllRoutes :: Path(r)
    ensures forall r: RouteName :: Path(r) in RouteTitles
  {
    forall r: RouteName ensures r in AllRoutes {
      RouteTable(r, r);
    }
    var paths := set r | r in AllRoutes :: Path(r);
    assert Path(Login) in paths && Path(Register) in paths && Path(Home) in paths && Path(Products) in paths;
    assert Path(Profile) in paths && Path(Cart) in paths && Path(Orders) in paths;
  }
}
