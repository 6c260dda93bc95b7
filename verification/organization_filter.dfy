/**
 * `OrganizationViewSet.get_queryset`: the list endpoint narrows the
 * organization table by the query string parameters, one filter after the
 * other, and returns the survivors ordered by name.
 */
module OrganizationFilter {
  import opened Wrappers
  import opened Seqs
  import opened Text
  import opened Organization

  /** The query string parameters the endpoint reads; `None` when absent. */
  datatype Query = Query(
    name: Option<string>,
    orgType: Option<string>,
    country: Option<string>,
    dateFrom: Option<string>,
    dateTo: Option<string>,
    headcountMin: Option<string>,
    headcountMax: Option<string>)

  /** A request without any of the recognised parameters. */
  const NoParams := Query(None, None, None, None, None, None, None)

  /** The library parsers the endpoint calls: `datetime.strptime(v,
      '%Y-%m-%d').date()` and `int(v)`, each `None` where it raises
      `ValueError`. */
  datatype Parsers = Parsers(date: string -> Option<Date>, integer: string -> Option<int>)

  /** Python truthiness of a parameter: present and not empty. */
  predicate Given(p: Option<string>) {
    p.Some? && |p.value| > 0
  }

  // ---------------------------------------------------------------------
  // Parameter decoding
  // ---------------------------------------------------------------------

  /** `[int(t.strip()) for t in tokens if t.strip().isdigit()]` with the
      guard read as intended: a token counts when, stripped, it is an ASCII
      decimal numeral. `TypeCodesAsWritten` is the comprehension as
      written. */
  function TypeCodes(tokens: seq<string>): (r: seq<nat>)
    ensures forall v :: v in r <==> exists t :: t in tokens && IsDecimal(Strip(t)) && DecimalValue(Strip(t)) == v
  {
    if tokens == [] then []
    else
      var t := Strip(tokens[0]);
      var rest := TypeCodes(tokens[1..]);
      assert forall u :: u in tokens <==> u == tokens[0] || u in tokens[1..];
      if IsDecimal(t) then [DecimalValue(t)] + rest else rest
  }

  /** The error `get_queryset()` can raise, which the framework turns into
      a server error. */
  datatype ServerError = ValueError

  /** The comprehension as written: `isdigit()` admits a token that `int()`
      then refuses, and the whole request fails. The list it returns when
      nothing fails is the one `TypeCodes` computes. */
  function TypeCodesAsWritten(tokens: seq<string>): (r: Result<seq<nat>, ServerError>)
    ensures r.Err? <==> exists t :: t in tokens && IsDigitString(Strip(t)) && !IsDecimal(Strip(t))
    ensures r.Ok? ==> r.value == TypeCodes(tokens)
  {
    if tokens == [] then Ok([])
    else
      var t := Strip(tokens[0]);
      assert forall u :: u in tokens <==> u == tokens[0] || u in tokens[1..];
      if IsDigitString(t) && !IsDecimal(t) then Err(ValueError)
      else
        match TypeCodesAsWritten(tokens[1..])
        case Err(e) => Err(e)
        case Ok(rest) => if IsDigitString(t) then Ok([DecimalValue(t)] + rest) else Ok(rest)
  }

  /** `org_type=²`: the as-written comprehension raises, while the codes
      the endpoint uses simply drop the token. */
  lemma SuperscriptTypeFails()
    ensures TypeCodesAsWritten(Split([0xB2 as char], ',')).Err?
    ensures OrgTypeCodes(Some([0xB2 as char])) == []
  {
    var sup := [0xB2 as char];
    assert Split(sup, ',') == [sup];
    assert Strip(sup) == sup;
    assert IsDigitString(sup) && !IsDecimal(sup);
    assert [sup][1..] == [];
    assert TypeCodes([sup]) == TypeCodes([]);
  }

  /** The `org_type` codes requested, with the corrected guard: the
      comma-separated tokens that are decimal numerals once stripped, read as
      integers; other tokens are dropped silently. */
  function OrgTypeCodes(p: Option<string>): (r: seq<nat>)
    ensures !Given(p) ==> r == []
    ensures Given(p) ==> forall v :: v in r <==>
      exists t :: t in Split(p.value, ',') && IsDecimal(Strip(t)) && DecimalValue(Strip(t)) == v
  {
    if Given(p) then TypeCodes(Split(p.value, ',')) else []
  }

  /** The date bound a parameter sets: none when it is absent, empty or
      fails to parse. */
  function DateBound(p: Option<string>, parse: Parsers): Option<Date> {
    if Given(p) then parse.date(p.value) else None
  }

  /** The headcount bound a parameter sets: none when it is absent, empty or
      fails to parse. */
  function CountBound(p: Option<string>, parse: Parsers): Option<int> {
    if Given(p) then parse.integer(p.value) else None
  }

  // ---------------------------------------------------------------------
  // The filters, in the order the endpoint applies them
  // ---------------------------------------------------------------------

  predicate KeepName(q: Query, o: Org) {
    Given(q.name) ==> Contains(Lower(o.name), Lower(q.name.value))
  }

  predicate KeepType(q: Query, o: Org) {
    OrgTypeCodes(q.orgType) != [] ==> o.orgType.Code() in OrgTypeCodes(q.orgType)
  }

  predicate KeepCountry(q: Query, o: Org) {
    Given(q.country) ==> o.nation == Upper(q.country.value)
  }

  predicate KeepFrom(q: Query, parse: Parsers, o: Org) {
    DateBound(q.dateFrom, parse).Some? ==> DateLe(DateBound(q.dateFrom, parse).value, o.foundingDate)
  }

  predicate KeepTo(q: Query, parse: Parsers, o: Org) {
    DateBound(q.dateTo, parse).Some? ==> DateLe(o.foundingDate, DateBound(q.dateTo, parse).value)
  }

  /** `headcount__gte`: a NULL headcount never compares, so it is dropped. */
  predicate KeepMin(q: Query, parse: Parsers, o: Org) {
    CountBound(q.headcountMin, parse).Some? ==>
      o.headcount.Some? && CountBound(q.headcountMin, parse).value <= o.headcount.value
  }

  /** `headcount__lte`: a NULL headcount never compares, so it is dropped. */
  predicate KeepMax(q: Query, parse: Parsers, o: Org) {
    CountBound(q.headcountMax, parse).Some? ==>
      o.headcount.Some? && o.headcount.value <= CountBound(q.headcountMax, parse).value
  }

  /** `headcount__isnull=False` once either headcount parameter is given. */
  predicate KeepKnownHeadcount(q: Query, o: Org) {
    Given(q.headcountMin) || Given(q.headcountMax) ==> o.headcount.Some?
  }

  /** `name__icontains`: case-insensitive substring match, only for a
      non-empty `name`. */
  function ByName(xs: seq<Org>, q: Query): (r: seq<Org>)
    ensures !Given(q.name) ==> r == xs
    ensures forall o :: o in r <==> o in xs && (Given(q.name) ==> Contains(Lower(o.name), Lower(q.name.value)))
    ensures r == Filter(xs, o => KeepName(q, o))
  {
    FilterMembers(xs, o => KeepName(q, o));
    if Given(q.name) then Filter(xs, o => KeepName(q, o))
    else FilterAll(xs, o => KeepName(q, o)); xs
  }

  /** `org_type__in`, applied only when at least one token survived. */
  function ByOrgType(xs: seq<Org>, q: Query): (r: seq<Org>)
    ensures OrgTypeCodes(q.orgType) == [] ==> r == xs
    ensures forall o :: o in r <==> (o in xs
      && (OrgTypeCodes(q.orgType) != [] ==> o.orgType.Code() in OrgTypeCodes(q.orgType)))
    ensures r == Filter(xs, o => KeepType(q, o))
  {
    FilterMembers(xs, o => KeepType(q, o));
    if Given(q.orgType) && OrgTypeCodes(q.orgType) != [] then Filter(xs, o => KeepType(q, o))
    else FilterAll(xs, o => KeepType(q, o)); xs
  }

  /** `nation=country.upper()`. */
  function ByCountry(xs: seq<Org>, q: Query): (r: seq<Org>)
    ensures !Given(q.country) ==> r == xs
    ensures forall o :: o in r <==> o in xs && (Given(q.country) ==> o.nation == Upper(q.country.value))
    ensures r == Filter(xs, o => KeepCountry(q, o))
  {
    FilterMembers(xs, o => KeepCountry(q, o));
    if Given(q.country) then Filter(xs, o => KeepCountry(q, o))
    else FilterAll(xs, o => KeepCountry(q, o)); xs
  }

  /** `founding_date__gte`, skipped when the date does not parse. */
  function FoundedFrom(xs: seq<Org>, q: Query, parse: Parsers): (r: seq<Org>)
    ensures DateBound(q.dateFrom, parse).None? ==> r == xs
    ensures forall o :: o in r <==> (o in xs
      && (DateBound(q.dateFrom, parse).Some? ==> DateLe(DateBound(q.dateFrom, parse).value, o.foundingDate)))
    ensures r == Filter(xs, o => KeepFrom(q, parse, o))
  {
    FilterMembers(xs, o => KeepFrom(q, parse, o));
    if Given(q.dateFrom) then
      match parse.date(q.dateFrom.value)
      case Some(_) => Filter(xs, o => KeepFrom(q, parse, o))
      case None => FilterAll(xs, o => KeepFrom(q, parse, o)); xs
    else FilterAll(xs, o => KeepFrom(q, parse, o)); xs
  }

  /** `founding_date__lte`, skipped when the date does not parse. */
  function FoundedTo(xs: seq<Org>, q: Query, parse: Parsers): (r: seq<Org>)
    ensures DateBound(q.dateTo, parse).None? ==> r == xs
    ensures forall o :: o in r <==> (o in xs
      && (DateBound(q.dateTo, parse).Some? ==> DateLe(o.foundingDate, DateBound(q.dateTo, parse).value)))
    ensures r == Filter(xs, o => KeepTo(q, parse, o))
  {
    FilterMembers(xs, o => KeepTo(q, parse, o));
    if Given(q.dateTo) then
      match parse.date(q.dateTo.value)
      case Some(_) => Filter(xs, o => KeepTo(q, parse, o))
      case None => FilterAll(xs, o => KeepTo(q, parse, o)); xs
    else FilterAll(xs, o => KeepTo(q, parse, o)); xs
  }

  /** `headcount__gte`, skipped when the number does not parse. */
  function HeadcountAtLeast(xs: seq<Org>, q: Query, parse: Parsers): (r: seq<Org>)
    ensures CountBound(q.headcountMin, parse).None? ==> r == xs
    ensures forall o :: o in r <==> (o in xs
      && (CountBound(q.headcountMin, parse).Some? ==>
            o.headcount.Some? && CountBound(q.headcountMin, parse).value <= o.headcount.value))
    ensures r == Filter(xs, o => KeepMin(q, parse, o))
  {
    FilterMembers(xs, o => KeepMin(q, parse, o));
    if Given(q.headcountMin) then
      match parse.integer(q.headcountMin.value)
      case Some(_) => Filter(xs, o => KeepMin(q, parse, o))
      case None => FilterAll(xs, o => KeepMin(q, parse, o)); xs
    else FilterAll(xs, o => KeepMin(q, parse, o)); xs
  }

  /** `headcount__lte`, skipped when the number does not parse. */
  function HeadcountAtMost(xs: seq<Org>, q: Query, parse: Parsers): (r: seq<Org>)
    ensures CountBound(q.headcountMax, parse).None? ==> r == xs
    ensures forall o :: o in r <==> (o in xs
      && (CountBound(q.headcountMax, parse).Some? ==>
            o.headcount.Some? && o.headcount.value <= CountBound(q.headcountMax, parse).value))
    ensures r == Filter(xs, o => KeepMax(q, parse, o))
  {
    FilterMembers(xs, o => KeepMax(q, parse, o));
    if Given(q.headcountMax) then
      match parse.integer(q.headcountMax.value)
      case Some(_) => Filter(xs, o => KeepMax(q, parse, o))
      case None => FilterAll(xs, o => KeepMax(q, parse, o)); xs
    else FilterAll(xs, o => KeepMax(q, parse, o)); xs
  }

  /** `headcount__isnull=False` whenever either headcount parameter is
      non-empty, whether or not it parsed. */
  function ExcludeUnknownHeadcount(xs: seq<Org>, q: Query): (r: seq<Org>)
    ensures !Given(q.headcountMin) && !Given(q.headcountMax) ==> r == xs
    ensures forall o :: o in r <==> (o in xs
      && (Given(q.headcountMin) || Given(q.headcountMax) ==> o.headcount.Some?))
    ensures r == Filter(xs, o => KeepKnownHeadcount(q, o))
  {
    FilterMembers(xs, o => KeepKnownHeadcount(q, o));
    if Given(q.headcountMin) || Given(q.headcountMax) then Filter(xs, o => KeepKnownHeadcount(q, o))
    else FilterAll(xs, o => KeepKnownHeadcount(q, o)); xs
  }

  // ---------------------------------------------------------------------
  // The endpoint
  // ---------------------------------------------------------------------

  /** `v` lies in the inclusive range whose absent ends are open. */
  predicate Within(lo: Option<int>, hi: Option<int>, v: int) {
    (lo.Some? ==> lo.value <= v) && (hi.Some? ==> v <= hi.value)
  }

  /** `d` lies in the inclusive date range whose absent ends are open. */
  predicate DateWithin(lo: Option<Date>, hi: Option<Date>, d: Date) {
    (lo.Some? ==> DateLe(lo.value, d)) && (hi.Some? ==> DateLe(d, hi.value))
  }

  /** The organizations a request asks for, stated field by field: the name
      contains the query ignoring case, the kind is one of the requested
      codes (if any token was a number), the nation is the upper-cased
      country, the founding date and the headcount lie within the bounds that
      parsed, and a headcount query never lists an unknown headcount. */
  predicate Admits(q: Query, parse: Parsers, o: Org) {
    && (Given(q.name) ==> Contains(Lower(o.name), Lower(q.name.value)))
    && (OrgTypeCodes(q.orgType) == [] || o.orgType.Code() in OrgTypeCodes(q.orgType))
    && (Given(q.country) ==> o.nation == Upper(q.country.value))
    && DateWithin(DateBound(q.dateFrom, parse), DateBound(q.dateTo, parse), o.foundingDate)
    && (if Given(q.headcountMin) || Given(q.headcountMax)
        then o.headcount.Some? &&
             Within(CountBound(q.headcountMin, parse), CountBound(q.headcountMax, parse), o.headcount.value)
        else true)
  }

  /** The filters in turn, in the order `get_queryset()` applies them. */
  function Selection(orgs: seq<Org>, q: Query, parse: Parsers): (r: seq<Org>)
    ensures multiset(r) <= multiset(orgs)
    ensures q == NoParams ==> r == orgs
  {
    var named := ByName(orgs, q);
    var typed := ByOrgType(named, q);
    var located := ByCountry(typed, q);
    var since := FoundedFrom(located, q, parse);
    var until := FoundedTo(since, q, parse);
    var atLeast := HeadcountAtLeast(until, q, parse);
    var atMost := HeadcountAtMost(atLeast, q, parse);
    ExcludeUnknownHeadcount(atMost, q)
  }

  /** The chain of filters keeps exactly the organizations `Admits`
      describes, in table order. */
  lemma SelectionIsOneFilter(orgs: seq<Org>, q: Query, parse: Parsers)
    ensures Selection(orgs, q, parse) == Filter(orgs, o => Admits(q, parse, o))
  {
    var s1 := ByName(orgs, q);
    var s2 := ByOrgType(s1, q);
    var p2 := o => KeepName(q, o) && KeepType(q, o);
    assert s2 == Filter(orgs, p2) by {
      FilterFilter(orgs, o => KeepName(q, o), o => KeepType(q, o), p2);
    }
    var s3 := ByCountry(s2, q);
    var p3 := o => p2(o) && KeepCountry(q, o);
    assert s3 == Filter(orgs, p3) by {
      FilterFilter(orgs, p2, o => KeepCountry(q, o), p3);
    }
    var s4 := FoundedFrom(s3, q, parse);
    var p4 := o => p3(o) && KeepFrom(q, parse, o);
    assert s4 == Filter(orgs, p4) by {
      FilterFilter(orgs, p3, o => KeepFrom(q, parse, o), p4);
    }
    var s5 := FoundedTo(s4, q, parse);
    var p5 := o => p4(o) && KeepTo(q, parse, o);
    assert s5 == Filter(orgs, p5) by {
      FilterFilter(orgs, p4, o => KeepTo(q, parse, o), p5);
    }
    var s6 := HeadcountAtLeast(s5, q, parse);
    var p6 := o => p5(o) && KeepMin(q, parse, o);
    assert s6 == Filter(orgs, p6) by {
      FilterFilter(orgs, p5, o => KeepMin(q, parse, o), p6);
    }
    var s7 := HeadcountAtMost(s6, q, parse);
    var p7 := o => p6(o) && KeepMax(q, parse, o);
    assert s7 == Filter(orgs, p7) by {
      FilterFilter(orgs, p6, o => KeepMax(q, parse, o), p7);
    }
    var s8 := ExcludeUnknownHeadcount(s7, q);
    var p8 := o => p7(o) && KeepKnownHeadcount(q, o);
    assert s8 == Filter(orgs, p8) by {
      FilterFilter(orgs, p7, o => KeepKnownHeadcount(q, o), p8);
    }
    forall o | o in orgs
      ensures p8(o) == Admits(q, parse, o)
    {
      KeepsAreAdmits(q, parse, o);
    }
    FilterCongruent(orgs, p8, o => Admits(q, parse, o));
  }

  /** The eight filter conditions together say what `Admits` says. */
  lemma KeepsAreAdmits(q: Query, parse: Parsers, o: Org)
    ensures (KeepName(q, o) && KeepType(q, o) && KeepCountry(q, o) && KeepFrom(q, parse, o)
      && KeepTo(q, parse, o) && KeepMin(q, parse, o) && KeepMax(q, parse, o)
      && KeepKnownHeadcount(q, o)) == Admits(q, parse, o)
  {
  }

  /** `get_queryset()`: the filters in turn, then `order_by('name')`. */
  function GetQueryset(orgs: seq<Org>, q: Query, parse: Parsers): (r: seq<Org>)
    ensures SortedByName(r)
    ensures multiset(r) == multiset(Filter(orgs, o => Admits(q, parse, o)))
    ensures multiset(r) <= multiset(orgs)
    ensures forall o :: o in r <==> o in orgs && Admits(q, parse, o)
  {
    var selected := Selection(orgs, q, parse);
    SelectionIsOneFilter(orgs, q, parse);
    FilterMembers(orgs, o => Admits(q, parse, o));
    var r := SortByName(selected);
    SameMembers(r, selected);
    r
  }

  /** `get_queryset()` as written: the `org_type` comprehension raises
      `ValueError` on a token that `isdigit()` admits and `int()` refuses,
      outside every `try`, so the request fails; otherwise the page is the
      one `GetQueryset` builds. */
  function GetQuerysetAsWritten(orgs: seq<Org>, q: Query, parse: Parsers): (r: Result<seq<Org>, ServerError>)
    ensures r.Err? <==> (Given(q.orgType) &&
      exists t :: t in Split(q.orgType.value, ',') && IsDigitString(Strip(t)) && !IsDecimal(Strip(t)))
    ensures r.Ok? ==> r.value == GetQueryset(orgs, q, parse)
  {
    if Given(q.orgType) && TypeCodesAsWritten(Split(q.orgType.value, ',')).Err? then Err(ValueError)
    else Ok(GetQueryset(orgs, q, parse))
  }

  /** `org_type=²` and nothing else: the request as written fails, while the
      corrected endpoint lists every organization. */
  lemma SuperscriptRequestFails(orgs: seq<Org>, parse: Parsers)
    ensures GetQuerysetAsWritten(orgs, NoParams.(orgType := Some([0xB2 as char])), parse).Err?
    ensures multiset(GetQueryset(orgs, NoParams.(orgType := Some([0xB2 as char])), parse)) == multiset(orgs)
  {
    var q := NoParams.(orgType := Some([0xB2 as char]));
    SuperscriptTypeFails();
    NoNumericTypeIgnored(orgs, q, parse);
    assert q.(orgType := None) == NoParams;
    NoParamsListsAll(orgs, parse);
  }

  // ---------------------------------------------------------------------
  // Properties of the endpoint
  // ---------------------------------------------------------------------

  /** Two requests that admit the same organizations list the same page. */
  lemma SameAdmitsSameList(orgs: seq<Org>, q: Query, q': Query, parse: Parsers)
    requires forall o :: Admits(q, parse, o) == Admits(q', parse, o)
    ensures GetQueryset(orgs, q, parse) == GetQueryset(orgs, q', parse)
  {
    SelectionIsOneFilter(orgs, q, parse);
    SelectionIsOneFilter(orgs, q', parse);
    FilterCongruent(orgs, o => Admits(q, parse, o), o => Admits(q', parse, o));
  }

  /** Without any recognised parameter every organization is listed. */
  lemma NoParamsListsAll(orgs: seq<Org>, parse: Parsers)
    ensures multiset(GetQueryset(orgs, NoParams, parse)) == multiset(orgs)
  {
    FilterAll(orgs, o => Admits(NoParams, parse, o));
  }

  /** `name__icontains` ignores case: the name in upper case selects the
      same organizations, in the same order, as the name as typed. */
  lemma NameQueryIgnoresCase(xs: seq<Org>, q: Query, n: string)
    ensures ByName(xs, q.(name := Some(Upper(n)))) == ByName(xs, q.(name := Some(n)))
  {
    var q1 := q.(name := Some(Upper(n)));
    var q2 := q.(name := Some(n));
    LowerUpper(n);
    assert Given(q1.name) == Given(q2.name);
    forall o | o in xs
      ensures KeepName(q1, o) == KeepName(q2, o)
    {
    }
    FilterCongruent(xs, o => KeepName(q1, o), o => KeepName(q2, o));
  }

  /** `country.upper()` ignores case: `country=tr` selects the same
      organizations, in the same order, as `country=TR`. */
  lemma CountryQueryIgnoresCase(xs: seq<Org>, q: Query, c: string)
    ensures ByCountry(xs, q.(country := Some(Lower(c)))) == ByCountry(xs, q.(country := Some(c)))
  {
    var q1 := q.(country := Some(Lower(c)));
    var q2 := q.(country := Some(c));
    UpperLower(c);
    assert Given(q1.country) == Given(q2.country);
    forall o | o in xs
      ensures KeepCountry(q1, o) == KeepCountry(q2, o)
    {
    }
    FilterCongruent(xs, o => KeepCountry(q1, o), o => KeepCountry(q2, o));
  }

  /** An empty `name` acts as an absent one, whatever the other parameters. */
  lemma EmptyNameIgnored(orgs: seq<Org>, q: Query, parse: Parsers)
    requires q.name == Some("")
    ensures GetQueryset(orgs, q, parse) == GetQueryset(orgs, q.(name := None), parse)
  {
    SameAdmitsSameList(orgs, q, q.(name := None), parse);
  }

  /** An empty `org_type` acts as an absent one, whatever the other
      parameters. */
  lemma EmptyOrgTypeIgnored(orgs: seq<Org>, q: Query, parse: Parsers)
    requires q.orgType == Some("")
    ensures GetQueryset(orgs, q, parse) == GetQueryset(orgs, q.(orgType := None), parse)
  {
    SameAdmitsSameList(orgs, q, q.(orgType := None), parse);
  }

  /** An empty `country` acts as an absent one, whatever the other
      parameters. */
  lemma EmptyCountryIgnored(orgs: seq<Org>, q: Query, parse: Parsers)
    requires q.country == Some("")
    ensures GetQueryset(orgs, q, parse) == GetQueryset(orgs, q.(country := None), parse)
  {
    SameAdmitsSameList(orgs, q, q.(country := None), parse);
  }

  /** An empty `founding_date_from` acts as an absent one, whatever the
      other parameters. */
  lemma EmptyDateFromIgnored(orgs: seq<Org>, q: Query, parse: Parsers)
    requires q.dateFrom == Some("")
    ensures GetQueryset(orgs, q, parse) == GetQueryset(orgs, q.(dateFrom := None), parse)
  {
    SameAdmitsSameList(orgs, q, q.(dateFrom := None), parse);
  }

  /** An empty `founding_date_to` acts as an absent one, whatever the other
      parameters. */
  lemma EmptyDateToIgnored(orgs: seq<Org>, q: Query, parse: Parsers)
    requires q.dateTo == Some("")
    ensures GetQueryset(orgs, q, parse) == GetQueryset(orgs, q.(dateTo := None), parse)
  {
    SameAdmitsSameList(orgs, q, q.(dateTo := None), parse);
  }

  /** An empty `headcount_min` acts as an absent one, whatever the other
      parameters: it neither bounds nor drops unknown headcounts. */
  lemma EmptyHeadcountMinIgnored(orgs: seq<Org>, q: Query, parse: Parsers)
    requires q.headcountMin == Some("")
    ensures GetQueryset(orgs, q, parse) == GetQueryset(orgs, q.(headcountMin := None), parse)
  {
    SameAdmitsSameList(orgs, q, q.(headcountMin := None), parse);
  }

  /** An empty `headcount_max` acts as an absent one, whatever the other
      parameters: it neither bounds nor drops unknown headcounts. */
  lemma EmptyHeadcountMaxIgnored(orgs: seq<Org>, q: Query, parse: Parsers)
    requires q.headcountMax == Some("")
    ensures GetQueryset(orgs, q, parse) == GetQueryset(orgs, q.(headcountMax := None), parse)
  {
    SameAdmitsSameList(orgs, q, q.(headcountMax := None), parse);
  }

  /** A `founding_date_from` that does not parse is ignored; the other bound
      still applies. */
  lemma UnparseableDateFromIgnored(orgs: seq<Org>, q: Query, parse: Parsers)
    requires q.dateFrom.Some? && parse.date(q.dateFrom.value).None?
    ensures GetQueryset(orgs, q, parse) == GetQueryset(orgs, q.(dateFrom := None), parse)
  {
    SameAdmitsSameList(orgs, q, q.(dateFrom := None), parse);
  }

  /** A `founding_date_to` that does not parse is ignored; the other bound
      still applies. */
  lemma UnparseableDateToIgnored(orgs: seq<Org>, q: Query, parse: Parsers)
    requires q.dateTo.Some? && parse.date(q.dateTo.value).None?
    ensures GetQueryset(orgs, q, parse) == GetQueryset(orgs, q.(dateTo := None), parse)
  {
    SameAdmitsSameList(orgs, q, q.(dateTo := None), parse);
  }

  /** Any non-empty headcount parameter, even one that does not parse, drops
      the organizations whose headcount is unknown. */
  lemma HeadcountQueryDropsUnknown(orgs: seq<Org>, q: Query, parse: Parsers)
    requires Given(q.headcountMin) || Given(q.headcountMax)
    ensures forall o :: o in GetQueryset(orgs, q, parse) ==> o.headcount.Some?
  {
  }

  /** A `headcount_min` that does not parse sets no bound, but still drops the
      organizations with unknown headcount: the list is the one without it,
      less those. The same holds of `headcount_max`. */
  lemma UnparseableHeadcountMin(orgs: seq<Org>, q: Query, parse: Parsers)
    requires Given(q.headcountMin) && parse.integer(q.headcountMin.value).None?
    ensures forall o :: o in GetQueryset(orgs, q, parse) <==>
      o in GetQueryset(orgs, q.(headcountMin := None), parse) && o.headcount.Some?
  {
    forall o
      ensures Admits(q, parse, o) == (Admits(q.(headcountMin := None), parse, o) && o.headcount.Some?)
    {
    }
  }

  lemma UnparseableHeadcountMax(orgs: seq<Org>, q: Query, parse: Parsers)
    requires Given(q.headcountMax) && parse.integer(q.headcountMax.value).None?
    ensures forall o :: o in GetQueryset(orgs, q, parse) <==>
      o in GetQueryset(orgs, q.(headcountMax := None), parse) && o.headcount.Some?
  {
    forall o
      ensures Admits(q, parse, o) == (Admits(q.(headcountMax := None), parse, o) && o.headcount.Some?)
    {
    }
  }

  /** An `org_type` with no numeric token filters nothing. */
  lemma NoNumericTypeIgnored(orgs: seq<Org>, q: Query, parse: Parsers)
    requires OrgTypeCodes(q.orgType) == []
    ensures GetQueryset(orgs, q, parse) == GetQueryset(orgs, q.(orgType := None), parse)
  {
    SameAdmitsSameList(orgs, q, q.(orgType := None), parse);
  }

  /** `org_type=2,3` asks for codes 2 and 3. */
  lemma OrgTypeList()
    ensures OrgTypeCodes(Some("2,3")) == [2, 3]
  {
    SplitList();
    NumeralToken("3");
    NumeralToken("2");
    assert ["2", "3"][1..] == ["3"] && ["3"][1..] == [];
    assert TypeCodes(["3"]) == [3] + TypeCodes([]);
    assert TypeCodes(["2", "3"]) == [2] + TypeCodes(["3"]);
  }

  lemma SplitList()
    ensures Split("2,3", ',') == ["2", "3"]
  {
    assert Split("3", ',') == ["3"];
    assert ",3"[1..] == "3";
    assert Split(",3", ',') == ["", "3"];
    assert "2,3"[1..] == ",3";
    assert ['2'] + "" == "2";
  }

  /** A one-digit token without spaces reads as its digit. */
  lemma NumeralToken(t: string)
    requires |t| == 1 && IsDigit(t[0])
    ensures Strip(t) == t && IsDecimal(t) && DecimalValue(t) == t[0] as int - '0' as int
  {
    assert !IsSpace(t[0]);
    assert LeadingSpace(t) == 0;
    assert t[0..] == t;
    assert TrailingSpace(t) == 0;
    assert t[..0] == [];
  }

  /** Stray spaces around a token are stripped and a token that is not a
      number is dropped. */
  lemma OrgTypeSpacesAndJunk()
    ensures OrgTypeCodes(Some(" 2 ,x")) == [2]
  {
    SplitSpaced();
    StripSpaced();
    assert IsDecimal("2") && DecimalValue("2") == 2;
    assert [" 2 ", "x"][1..] == ["x"];
    NoCodeInX();
    assert TypeCodes([" 2 ", "x"]) == [2] + TypeCodes(["x"]);
  }

  lemma NoCodeInX()
    ensures TypeCodes(["x"]) == []
  {
    assert Strip("x") == "x";
    assert ["x"][1..] == [];
  }

  lemma SplitSpaced()
    ensures Split(" 2 ,x", ',') == [" 2 ", "x"]
  {
    assert Split("x", ',') == ["x"];
    assert Split(",x", ',') == ["", "x"];
    assert " ,x"[1..] == ",x";
    assert [' '] + "" == " ";
    assert Split(" ,x", ',') == [" ", "x"];
    assert "2 ,x"[1..] == " ,x";
    assert ['2'] + " " == "2 ";
    assert Split("2 ,x", ',') == ["2 ", "x"];
    assert " 2 ,x"[1..] == "2 ,x";
    assert [' '] + "2 " == " 2 ";
  }

  lemma StripSpaced()
    ensures Strip(" 2 ") == "2"
  {
    assert LeadingSpace(" 2 ") == 1;
    assert " 2 "[1..] == "2 ";
    assert TrailingSpace("2 ") == 1;
  }

  /** A value with no numeric token yields no codes at all. */
  lemma OrgTypeNoNumber()
    ensures OrgTypeCodes(Some("x,")) == []
  {
    SplitTrailingComma();
    NoCodeInX();
    assert ["x", ""][1..] == [""];
    assert Strip("") == "";
    assert [""][1..] == [];
    assert TypeCodes([""]) == [];
    assert TypeCodes(["x", ""]) == TypeCodes([""]);
  }

  /** A trailing comma leaves an empty last token. */
  lemma SplitTrailingComma()
    ensures Split(",", ',') == ["", ""]
    ensures Split("x,", ',') == ["x", ""]
  {
    assert Split("", ',') == [""];
    assert ","[1..] == "";
    assert Split(",", ',') == ["", ""];
    assert "x,"[1..] == ",";
    assert ['x'] + "" == "x";
  }
}
