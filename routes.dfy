/**
 * The browser-side route helper: a route name is looked up in a fixed
 * table of URL templates, placeholders `:key` are substituted one by one
 * (each `replace` with a string pattern changes only the first
 * occurrence), and the origin is prefixed on request.
 *
 * Parameters are what the callers pass: nothing, a scalar id (a number or
 * a string), or an object whose entries are taken in key order with their
 * values already converted to strings. `window.location.origin` is a
 * parameter.
 */
module Routes {
  import opened Common

  /** The route table: name and URL template, in declaration order. */
  const RouteTable: seq<(string, string)> := [
    ("treasury.clients.index", "/treasury/clients"),
    ("treasury.clients.create", "/treasury/clients/create"),
    ("treasury.clients.show", "/treasury/clients/:id"),
    ("treasury.clients.edit", "/treasury/clients/:id/edit"),
    ("treasury.clients.destroy", "/treasury/clients/:id"),
    ("treasury.clients.taxes.store", "/treasury/clients/:client_id/taxes"),
    ("treasury.clients.taxes.update", "/treasury/clients/:client_id/taxes/:tax_id"),
    ("treasury.clients.taxes.destroy", "/treasury/clients/:client_id/taxes/:tax_id"),
    ("treasury.clients.certificates.store", "/treasury/clients/:client_id/certificates"),
    ("treasury.clients.certificates.update", "/treasury/clients/:client_id/certificates/:certificate_id"),
    ("treasury.clients.certificates.destroy", "/treasury/clients/:client_id/certificates/:certificate_id")
  ]

  const NotFoundUrl: string := "#"

  datatype Params =
    | Scalar(value: string, isNumber: bool)  // a number (already printed) or a string
    | Object(entries: seq<(string, string)>)

  /** Truthiness of `params`: absent, the numbers `0` and `NaN`, and `""` skip the substitution; an object never does. */
  predicate Truthy(p: Option<Params>)
  {
    match p
    case None => false
    case Some(Scalar(v, isNumber)) => if isNumber then v != "0" && v != "NaN" else v != ""
    case Some(Object(_)) => true
  }

  /** `routeMap[name]`: the template of the first entry with that name. */
  function Lookup(table: seq<(string, string)>, name: string): (r: Option<string>)
    ensures r.Some? <==> exists i :: 0 <= i < |table| && table[i].0 == name
    ensures r.Some? ==> exists i :: 0 <= i < |table| && table[i] == (name, r.value)
  {
    if table == [] then None
    else if table[0].0 == name then Some(table[0].1)
    else
      var r := Lookup(table[1..], name);
      assert forall i :: 1 <= i < |table| ==> table[i] == table[1..][i - 1];
      r
  }

  /** The object branch: for each key in turn, its first placeholder replaced by the value. */
  function Substitute(url: string, entries: seq<(string, string)>): string
    decreases |entries|
  {
    if entries == [] then url
    else Substitute(ReplaceFirst(url, ":" + entries[0].0, entries[0].1), entries[1..])
  }

  /** The URL `route(name, params, absolute)` returns. */
  function RouteUrl(name: string, params: Option<Params>, absolute: bool, origin: string): string
  {
    match Lookup(RouteTable, name)
    case None => NotFoundUrl
    case Some(template) =>
      var path :=
        if !Truthy(params) then template
        else match params.value
          case Scalar(v, _) => ReplaceFirst(template, ":id", v)
          case Object(entries) => Substitute(template, entries);
      if absolute then origin + path else path
  }

  /** The object branch as the source writes it: `url` reassigned once per key. */
  method SubstituteAll(template: string, entries: seq<(string, string)>) returns (url: string)
    ensures url == Substitute(template, entries)
  {
    url := template;
    var i := 0;
    while i < |entries|
      invariant 0 <= i <= |entries|
      invariant Substitute(template, entries) == Substitute(url, entries[i..])
    {
      assert entries[i..][1..] == entries[i + 1..];
      url := ReplaceFirst(url, ":" + entries[i].0, entries[i].1);
      i := i + 1;
    }
  }

  /** `route`: lookup, substitution and the optional origin. */
  method Route(name: string, params: Option<Params>, absolute: bool, origin: string) returns (url: string)
    ensures url == RouteUrl(name, params, absolute, origin)
    ensures Lookup(RouteTable, name).None? ==> url == NotFoundUrl
    ensures Lookup(RouteTable, name).Some? && !Truthy(params) ==>
              url == (if absolute then origin else "") + Lookup(RouteTable, name).value
  {
    var template := Lookup(RouteTable, name);
    if template.None? {
      return NotFoundUrl;
    }
    url := template.value;
    if Truthy(params) {
      match params.value
      case Scalar(v, _) =>
        url := ReplaceFirst(url, ":id", v);
      case Object(entries) =>
        url := SubstituteAll(url, entries);
    }
    if absolute {
      url := origin + url;
    }
    if !absolute {
      assert "" + url == url;
    }
  }

  /** A scalar replaces the first `:id` and nothing else. */
  lemma ScalarReplacesId(name: string, v: string, isNumber: bool)
    requires Lookup(RouteTable, name).Some? && Truthy(Some(Scalar(v, isNumber)))
    ensures var t := Lookup(RouteTable, name).value;
            var u := RouteUrl(name, Some(Scalar(v, isNumber)), false, "");
            (!Contains(t, ":id") ==> u == t)
            && (Contains(t, ":id") ==> exists i :: 0 <= i <= |t| && OccursAt(t, ":id", i) && u == t[..i] + v + t[i + 3..])
  {
  }

  /** Keys with no placeholder left in the URL change nothing. */
  lemma {:induction false} AbsentKeysIgnored(url: string, entries: seq<(string, string)>)
    requires forall i :: 0 <= i < |entries| ==> !Contains(url, ":" + entries[i].0)
    ensures Substitute(url, entries) == url
    decreases |entries|
  {
    if entries != [] {
      assert ReplaceFirst(url, ":" + entries[0].0, entries[0].1) == url;
      assert forall i :: 0 <= i < |entries[1..]| ==> entries[1..][i] == entries[i + 1];
      AbsentKeysIgnored(url, entries[1..]);
    }
  }

  /** Substituting a list of entries is substituting its parts in order. */
  lemma {:induction false} SubstituteConcat(url: string, a: seq<(string, string)>, b: seq<(string, string)>)
    ensures Substitute(url, a + b) == Substitute(Substitute(url, a), b)
    decreases |a|
  {
    if a != [] {
      assert (a + b)[0] == a[0];
      assert (a + b)[1..] == a[1..] + b;
      SubstituteConcat(ReplaceFirst(url, ":" + a[0].0, a[0].1), a[1..], b);
    } else {
      assert a + b == b;
    }
  }

  /** For a known name `absolute` prefixes the origin to the path; an unknown name gives `#` without it. */
  lemma AbsolutePrefixesOrigin(name: string, params: Option<Params>, origin: string)
    ensures Lookup(RouteTable, name).Some? ==>
              RouteUrl(name, params, true, origin) == origin + RouteUrl(name, params, false, origin)
    ensures Lookup(RouteTable, name).None? ==> RouteUrl(name, params, true, origin) == NotFoundUrl
  {
  }

  /** A name matched at position `k` and at no earlier one. */
  lemma LookupAt(table: seq<(string, string)>, name: string, k: nat)
    requires k < |table| && table[k].0 == name && forall j :: 0 <= j < k ==> table[j].0 != name
    ensures Lookup(table, name) == Some(table[k].1)
    decreases k
  {
    if k > 0 {
      LookupAt(table[1..], name, k - 1);
    }
  }

  /** Every name in the table is a `treasury.clients.` route. */
  lemma TableHoldsClientRoutes()
    ensures forall i :: 0 <= i < |RouteTable| ==> RouteTable[i].0[..17] == "treasury.clients."
  {
    forall i | 0 <= i < |RouteTable| ensures RouteTable[i].0[..17] == "treasury.clients." {
      ClientRoutePrefix(RouteTable[i].0[17..]);
      if i < 6 { TableNamesLow(i); } else { TableNamesHigh(i); }
    }
  }

  lemma ClientRoutePrefix(rest: string)
    ensures ("treasury.clients." + rest)[..17] == "treasury.clients."
  {
  }

  lemma TableNamesLow(i: nat)
    requires i < 6
    ensures RouteTable[i].0 == "treasury.clients." + RouteTable[i].0[17..]
  {
  }

  lemma TableNamesHigh(i: nat)
    requires 6 <= i < |RouteTable|
    ensures RouteTable[i].0 == "treasury.clients." + RouteTable[i].0[17..]
  {
  }

  /** A name outside `treasury.clients.` is not in the table. */
  lemma OtherNamesMissing(name: string)
    requires |name| >= 17 && name[..17] != "treasury.clients."
    ensures Lookup(RouteTable, name).None?
  {
    TableHoldsClientRoutes();
  }

  /** The listing pages ask for names the table does not hold, so their links are `#`. */
  lemma PageRoutesMissing(origin: string)
    ensures Lookup(RouteTable, "treasury.bank-accounts.index").None?
    ensures Lookup(RouteTable, "treasury.bank-entities.index").None?
    ensures Lookup(RouteTable, "treasury.payment-orders.index").None?
    ensures RouteUrl("treasury.bank-accounts.index", None, true, origin) == "#"
  {
    var n1, n2, n3 := "treasury.bank-accounts.index", "treasury.bank-entities.index", "treasury.payment-orders.index";
    assert n1[9] == 'b' && n2[9] == 'b' && n3[9] == 'p';
    assert n1[..17][9] == n1[9] && n2[..17][9] == n2[9] && n3[..17][9] == n3[9];
    OtherNamesMissing(n1);
    OtherNamesMissing(n2);
    OtherNamesMissing(n3);
  }

  /** A placeholder cannot start inside a prefix free of `:`. */
  lemma NoPlaceholderBefore(prefix: string, rest: string, p: string)
    requires p != [] && p[0] == ':' && forall j :: 0 <= j < |prefix| ==> prefix[j] != ':'
    ensures forall j :: 0 <= j < |prefix| ==> !OccursAt(prefix + rest, p, j)
  {
    var t := prefix + rest;
    forall j | 0 <= j < |prefix| ensures !OccursAt(t, p, j) {
      assert t[j] == prefix[j];
    }
  }

  /** No placeholder starts inside the `/treasury/clients/` prefix every template shares. */
  lemma NoPlaceholderInPrefix(rest: string, p: string)
    requires p != [] && p[0] == ':'
    ensures forall j :: 0 <= j < 18 ==> !OccursAt("/treasury/clients/" + rest, p, j)
  {
    var prefix := "/treasury/clients/";
    forall j | 0 <= j < |prefix| ensures prefix[j] != ':' {
    }
    NoPlaceholderBefore(prefix, rest, p);
  }

  /** The first `:id` of the show template is at position 18. */
  lemma ShowTemplateId()
    ensures OccursAt("/treasury/clients/:id", ":id", 18)
    ensures forall j :: 0 <= j < 18 ==> !OccursAt("/treasury/clients/:id", ":id", j)
  {
    var t := "/treasury/clients/:id";
    assert t == "/treasury/clients/" + ":id";
    assert t[18..21] == ":id";
    NoPlaceholderInPrefix(":id", ":id");
  }

  /** One entry is one replacement. */
  lemma SubstituteOne(url: string, key: string, v: string)
    ensures Substitute(url, [(key, v)]) == ReplaceFirst(url, ":" + key, v)
  {
    assert [(key, v)][1..] == [];
  }

  /**
   * A key that is a prefix of a longer placeholder replaces the start of
   * that placeholder: `{client: v}` turns `/treasury/clients/:client_id/taxes`
   * into `/treasury/clients/` + v + `_id/taxes`.
   */
  lemma KeyPrefixClash(prefix: string, key: string, suffix: string, v: string)
    requires forall j :: 0 <= j < |prefix| ==> prefix[j] != ':'
    ensures Substitute(prefix + ":" + key + suffix, [(key, v)]) == prefix + v + suffix
  {
    var t := prefix + ":" + key + suffix;
    var p := ":" + key;
    assert t == prefix + (p + suffix);
    SubstituteOne(t, key, v);
    assert t[|prefix|..|prefix| + |p|] == p;
    NoPlaceholderBefore(prefix, p + suffix, p);
    ReplaceAtFirst(t, p, v, |prefix|);
    assert t[..|prefix|] == prefix && t[|prefix| + |p|..] == suffix;
  }

  lemma ShowLookup()
    ensures Lookup(RouteTable, "treasury.clients.show") == Some("/treasury/clients/:id")
  {
    var n := "treasury.clients.show";
    assert RouteTable[2].0 == n;
    assert |RouteTable[0].0| != |n| && |RouteTable[1].0| != |n|;
    LookupAt(RouteTable, n, 2);
  }

  /** The show route with an id: the id takes the place of `:id`. */
  lemma ShowRouteExample(v: string, isNumber: bool)
    requires Truthy(Some(Scalar(v, isNumber)))
    ensures RouteUrl("treasury.clients.show", Some(Scalar(v, isNumber)), false, "") == "/treasury/clients/" + v
  {
    ShowLookup();
    ShowReplace(v);
  }

  lemma ShowReplace(v: string)
    ensures ReplaceFirst("/treasury/clients/:id", ":id", v) == "/treasury/clients/" + v
  {
    var t := "/treasury/clients/:id";
    ShowTemplateId();
    ReplaceAtFirst(t, ":id", v, 18);
    assert t[..18] == "/treasury/clients/" && t[21..] == [];
  }

  /** A number param that prints as `NaN` is falsy, so the template keeps its `:id`; the string "NaN" is substituted. */
  lemma NaNKeepsTemplate()
    ensures RouteUrl("treasury.clients.show", Some(Scalar("NaN", true)), false, "") == "/treasury/clients/:id"
  {
    ShowLookup();
    assert !Truthy(Some(Scalar("NaN", true)));
  }

  /** The string "NaN", unlike the number, is truthy and takes the place of `:id`. */
  lemma NaNStringReplacesId()
    ensures RouteUrl("treasury.clients.show", Some(Scalar("NaN", false)), false, "") == "/treasury/clients/NaN"
  {
    assert Truthy(Some(Scalar("NaN", false)));
    ShowRouteExample("NaN", false);
  }

  /** Replacing the first occurrence when it is known to sit at `k`. */
  lemma ReplaceAtFirst(s: string, p: string, r: string, k: nat)
    requires OccursAt(s, p, k) && forall j :: 0 <= j < k ==> !OccursAt(s, p, j)
    ensures ReplaceFirst(s, p, r) == s[..k] + r + s[k + |p|..]
  {
    assert Contains(s, p);
  }
}
