/** The tracking page: the search handler with its blank-code guard, the
    classification of an event's status into one of four icons, and the
    one-line rendering of a shipping address. The lookup service and
    `JSON.parse` are parameters. */
module Tracking {
  import opened Text
  import opened Wrappers

  /** The part of a lookup's answer the handler stores. */
  datatype TrackingInfo = TrackingInfo(orderNumber: string, trackingCode: string, status: string)

  /** The page's state: the code typed, the last answer, and whether a
      search was ever made. */
  datatype Page = Page(code: string, info: Option<TrackingInfo>, searched: bool)

  /** The outcome of pressing search: the new state, the code sent to the
      service (none when nothing was sent) and the message shown. */
  datatype SearchOutcome = SearchOutcome(page: Page, query: Option<string>, message: Option<string>)

  /** `handleSearch`: a code that trims to nothing sends nothing and only
      warns; any other code is sent trimmed, marks the page as searched, and
      stores the answer, or clears the stored one when the lookup fails. */
  function HandleSearch(p: Page, lookup: string -> Result<TrackingInfo, string>): (r: SearchOutcome)
    ensures r.query.None? <==> AllSpace(p.code)
    ensures r.query.None? ==> r.page == p && r.message == Some("Digite o código de rastreamento")
    ensures r.query.Some? ==> && r.query.value == Trim(p.code) && r.query.value != ""
                              && r.page.searched && r.page.code == p.code
    ensures r.query.Some? ==> match lookup(r.query.value)
      case Ok(v) => r.page.info == Some(v) && r.message.None?
      case Err(_) => r.page.info.None? && r.message.Some?
  {
    TrimEmptyIff(p.code);
    var code := Trim(p.code);
    if code == "" then SearchOutcome(p, None, Some("Digite o código de rastreamento"))
    else match lookup(code)
      case Ok(v) => SearchOutcome(p.(info := Some(v), searched := true), Some(code), None)
      case Err(m) =>
        var text := if m == "" then "Código de rastreamento não encontrado" else m;
        SearchOutcome(p.(info := None, searched := true), Some(code), Some(text))
  }

  /** The "not found" panel: shown after a search that left no answer. */
  predicate NotFoundShown(p: Page) { p.searched && p.info.None? }

  /** A failed lookup always ends on the "not found" panel, whatever was
      shown before; a blank code never does unless it was already shown. */
  lemma FailedSearchShowsNotFound(p: Page, lookup: string -> Result<TrackingInfo, string>)
    ensures !AllSpace(p.code) && lookup(Trim(p.code)).Err? ==> NotFoundShown(HandleSearch(p, lookup).page)
    ensures AllSpace(p.code) ==> NotFoundShown(HandleSearch(p, lookup).page) == NotFoundShown(p)
  {
  }

  lemma {:induction false} TrimStartSkipsSpace(w: string, s: string)
    requires AllSpace(w)
    ensures TrimStart(w + s) == TrimStart(s)
    decreases |w|
  {
    if |w| == 0 {
      assert w + s == s;
    } else {
      assert (w + s)[1..] == w[1..] + s;
      assert (w + s)[0] == w[0] && IsSpace(w[0]);
      assert AllSpace(w[1..]) by {
        forall i | 0 <= i < |w[1..]| ensures IsSpace(w[1..][i]) {
          assert w[1..][i] == w[i + 1];
        }
      }
      TrimStartSkipsSpace(w[1..], s);
    }
  }

  /** Leading whitespace in the code makes no difference to what is sent
      or to what the page ends up showing. */
  lemma LeadingSpaceIgnored(p: Page, w: string, lookup: string -> Result<TrackingInfo, string>)
    requires AllSpace(w)
    ensures HandleSearch(p.(code := w + p.code), lookup).query == HandleSearch(p, lookup).query
    ensures HandleSearch(p.(code := w + p.code), lookup).page.info == HandleSearch(p, lookup).page.info
  {
    TrimStartSkipsSpace(w, p.code);
    assert Trim(w + p.code) == Trim(p.code);
    SameTrimSameSearch(p, w + p.code, lookup);
  }

  /** Only the trimmed code matters to what is sent and what is stored. */
  lemma SameTrimSameSearch(p: Page, code: string, lookup: string -> Result<TrackingInfo, string>)
    requires Trim(code) == Trim(p.code)
    ensures HandleSearch(p.(code := code), lookup).query == HandleSearch(p, lookup).query
    ensures HandleSearch(p.(code := code), lookup).page.info == HandleSearch(p, lookup).page.info
  {
  }

  // --------------------------------------------------------- status icons

  /** The four timeline icons: clock, truck, check and pin. */
  datatype Icon = Clock | Truck | Check | Pin

  predicate ConfirmedGroup(s: string) { Includes(s, "confirmado") || Includes(s, "preparação") }
  predicate ShippedGroup(s: string) { Includes(s, "enviado") || Includes(s, "trânsito") }
  predicate DeliveredGroup(s: string) { Includes(s, "entrega") || Includes(s, "entregue") }

  /** `getStatusIcon`: the lower-cased status is tested against the keyword
      groups in priority order; the first group that matches decides. */
  function StatusIcon(status: string): (r: Icon)
    ensures r == Clock <==> ConfirmedGroup(Lower(status))
    ensures r == Truck <==> !ConfirmedGroup(Lower(status)) && ShippedGroup(Lower(status))
    ensures r == Check <==> !ConfirmedGroup(Lower(status)) && !ShippedGroup(Lower(status)) && DeliveredGroup(Lower(status))
    ensures r == Pin <==> !ConfirmedGroup(Lower(status)) && !ShippedGroup(Lower(status)) && !DeliveredGroup(Lower(status))
  {
    var l := Lower(status);
    if ConfirmedGroup(l) then Clock
    else if ShippedGroup(l) then Truck
    else if DeliveredGroup(l) then Check
    else Pin
  }

  /** The classification ignores case. */
  lemma StatusIconIgnoresCase(status: string)
    ensures StatusIcon(Lower(status)) == StatusIcon(status)
  {
    LowerIdempotent(status);
  }

  /** A status naming two stages gets the earlier group's icon. */
  lemma StatusPriority(a: string, b: string)
    ensures StatusIcon(a + "enviado" + b + "entrega") == Truck || StatusIcon(a + "enviado" + b + "entrega") == Clock
    ensures !ConfirmedGroup(Lower(a + "enviado" + b + "entrega")) ==> StatusIcon(a + "enviado" + b + "entrega") == Truck
  {
    var s := a + "enviado" + b + "entrega";
    var l := Lower(s);
    LowerAppend(a + "enviado" + b, "entrega");
    LowerAppend(a + "enviado", b);
    LowerAppend(a, "enviado");
    assert Lower("enviado") == "enviado";
    assert l == Lower(a) + "enviado" + Lower(b) + "entrega";
    assert l[|a|..|a| + 7] == "enviado";
    IncludesAt(l, "enviado", |a|);
  }

  /** Upper-case Portuguese keywords are recognised: "PREPARAÇÃO" lowers
      to "preparação", so any status containing it shows the clock. */
  lemma UpperCaseKeyword(a: string, b: string)
    ensures StatusIcon(a + "PREPARAÇÃO" + b) == Clock
  {
    LowerAppend(a + "PREPARAÇÃO", b);
    LowerAppend(a, "PREPARAÇÃO");
    var k := "PREPARAÇÃO";
    assert Lower(k) == "preparação" by {
      assert |Lower(k)| == 10;
      forall i | 0 <= i < 10 ensures Lower(k)[i] == "preparação"[i] {
      }
    }
    var l := Lower(a + k + b);
    assert l == Lower(a) + "preparação" + Lower(b);
    assert l[|a|..|a| + 10] == "preparação";
    IncludesAt(l, "preparação", |a|);
  }

  // -------------------------------------------------------------- address

  /** A shipping address as stored. A missing complement is the empty
      string: both are falsy. */
  datatype Address = Address(street: string, number: string, complement: string,
                             neighborhood: string, city: string, state: string, zipCode: string)

  /** What the order carries: either a JSON string or the address itself. */
  datatype AddressField = AsText(text: string) | AsObject(address: Address)

  /** The text before the optional complement. */
  function Head(a: Address): string { a.street + ", " + a.number }

  /** The text after the optional complement. */
  function Tail(a: Address): string {
    " - " + a.neighborhood + ", " + a.city + "/" + a.state + " - CEP: " + a.zipCode
  }

  /** The template of `formatAddress`: the ", complement" segment appears
      only when the complement is non-empty. */
  function Render(a: Address): (r: string)
    ensures a.complement == "" ==> r == Head(a) + Tail(a)
    ensures a.complement != "" ==> r == Head(a) + (", " + a.complement) + Tail(a)
  {
    a.street + ", " + a.number + (if a.complement != "" then ", " + a.complement else "")
      + " - " + a.neighborhood + ", " + a.city + "/" + a.state + " - CEP: " + a.zipCode
  }

  /** Rendering with a complement is rendering without it plus the segment,
      inserted after the number. */
  lemma ComplementSegment(a: Address)
    ensures StartsWith(Render(a), Head(a))
    ensures |Render(a)| == |Render(a.(complement := ""))| + (if a.complement == "" then 0 else |a.complement| + 2)
    ensures a.complement != "" ==>
      Render(a)[|Head(a)|..|Head(a)| + 2 + |a.complement|] == ", " + a.complement
  {
    var h := Head(a);
    assert Render(a)[..|h|] == h;
    if a.complement != "" {
      var seg := ", " + a.complement;
      assert Render(a) == h + seg + Tail(a);
      assert (h + seg + Tail(a))[|h|..|h| + |seg|] == seg;
    }
  }

  /** `formatAddress`: a string is first parsed as JSON and returned as it
      is when parsing fails. `parse` stands for `JSON.parse`, with `None`
      for a string it rejects. */
  function FormatAddress(field: AddressField, parse: string -> Option<Address>): (r: string)
    ensures field.AsText? && parse(field.text).None? ==> r == field.text
    ensures field.AsText? && parse(field.text).Some? ==> r == Render(parse(field.text).value)
    ensures field.AsObject? ==> r == Render(field.address)
  {
    match field
    case AsText(s) =>
      (match parse(s)
       case None => s
       case Some(a) => Render(a))
    case AsObject(a) => Render(a)
  }

  /** When the stored text parses to an address, the text form is shown
      exactly like the address itself. */
  lemma TextFormMatchesObject(text: string, a: Address, parse: string -> Option<Address>)
    requires parse(text) == Some(a)
    ensures FormatAddress(AsText(text), parse) == FormatAddress(AsObject(a), parse)
  {
  }

  /** Whatever the address, its line opens with "street, number" and closes
      with the CEP, so the rendered text always names both. */
  lemma RenderEnds(a: Address)
    ensures StartsWith(Render(a), a.street + ", " + a.number)
    ensures var r := Render(a); var c := " - CEP: " + a.zipCode;
      |c| <= |r| && r[|r| - |c|..] == c
  {
    var c := " - CEP: " + a.zipCode;
    var seg := if a.complement != "" then ", " + a.complement else "";
    var t := " - " + a.neighborhood + ", " + a.city + "/" + a.state;
    assert StartsWith(Render(a), Head(a)) by {
      assert Render(a) == Head(a) + (seg + Tail(a));
      PrefixOfConcat(Head(a), seg + Tail(a));
    }
    assert Render(a)[|Render(a)| - |c|..] == c by {
      var x := Head(a) + seg + t;
      assert Render(a) == x + c by {
        assert Tail(a) == t + c;
      }
      SuffixOfConcat(x, c);
    }
  }

  lemma PrefixOfConcat(x: string, y: string)
    ensures (x + y)[..|x|] == x
  {
  }

  lemma SuffixOfConcat(x: string, y: string)
    ensures (x + y)[|x|..] == y
  {
  }
}
