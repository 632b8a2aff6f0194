/** The data paths of the freee client that do not depend on the transport: the
    companies listing and the URL of a GET request with its query string. */
module FreeeApi {
  import opened Text
  import opened Values

  /** A company of the signed-in user; the other fields of the response are not read. */
  datatype Company = Company(id: int, name: string, displayName: string)

  datatype CompanySummary = CompanySummary(id: int, name: string)

  /** getCompanies: companies.map(c => ({id: c.id, name: c.display_name})). */
  function GetCompanies(companies: seq<Company>): (summaries: seq<CompanySummary>)
    ensures |summaries| == |companies|
    ensures forall i :: 0 <= i < |companies| ==>
      summaries[i].id == companies[i].id && summaries[i].name == companies[i].displayName
  {
    if |companies| == 0 then []
    else [CompanySummary(companies[0].id, companies[0].displayName)] + GetCompanies(companies[1..])
  }

  const BaseUrl: string := "https://api.freee.co.jp"

  /** `${p}=${queryParams[p]}` for one parameter. */
  function QueryPair(key: string, value: Value): string
  {
    key + "=" + ToText(value)
  }

  function Queries(params: seq<(string, Value)>): (queries: seq<string>)
    ensures |queries| == |params|
  {
    seq(|params|, i requires 0 <= i < |params| => QueryPair(params[i].0, params[i].1))
  }

  /** The URL getRequest fetches: base + path, and with parameters (in their key
      order) '?' and the key=value pairs joined by '&'. */
  function RequestUrl(path: string, params: Option<seq<(string, Value)>>): string
  {
    match params
    case None => BaseUrl + path
    case Some(ps) => BaseUrl + path + "?" + Join(Queries(ps), '&')
  }

  /** The URL building of getRequest: the query strings are pushed one per key. */
  method GetRequestUrl(path: string, params: Option<seq<(string, Value)>>) returns (url: string)
    ensures url == RequestUrl(path, params)
  {
    url := BaseUrl + path;
    if params.Some? {
      var queries: seq<string> := [];
      var k := 0;
      while k < |params.value|
        invariant 0 <= k <= |params.value|
        invariant queries == Queries(params.value[..k])
      {
        queries := queries + [QueryPair(params.value[k].0, params.value[k].1)];
        k := k + 1;
      }
      assert params.value[..|params.value|] == params.value;
      url := url + "?" + Join(queries, '&');
    }
  }

  /** A query pair splits on '=' back into its key and the value's text when
      neither contains '='. */
  lemma QueryPairSplits(key: string, value: Value)
    requires '=' !in key && '=' !in ToText(value)
    ensures Split(QueryPair(key, value), '=') == [key, ToText(value)]
  {
    assert Join([key, ToText(value)], '=') == QueryPair(key, value) by {
      assert Join([ToText(value)], '=') == ToText(value);
    }
    SplitJoin([key, ToText(value)], '=');
  }

  /** The URL starts with base + path; without parameters that is all of it, and
      with parameters the rest is '?' then a query that splits on '&' back into
      one key=value pair per parameter, in order (when no key or value text
      holds '&'). */
  lemma RequestUrlParts(path: string, params: Option<seq<(string, Value)>>)
    ensures var url := RequestUrl(path, params);
      |BaseUrl + path| <= |url| && url[..|BaseUrl + path|] == BaseUrl + path
    ensures params.None? ==> RequestUrl(path, params) == BaseUrl + path
    ensures params.Some? && |params.value| > 0
            && (forall i :: 0 <= i < |params.value| ==> '&' !in params.value[i].0 && '&' !in ToText(params.value[i].1)) ==>
      var url := RequestUrl(path, params);
      var n := |BaseUrl + path|;
      n < |url| && url[n] == '?' && Split(url[n + 1..], '&') == Queries(params.value)
  {
    if params.Some? {
      var ps := params.value;
      var prefix := BaseUrl + path;
      var query := Join(Queries(ps), '&');
      var url := RequestUrl(path, params);
      assert url == prefix + "?" + query;
      assert url[..|prefix|] == prefix;
      assert url[|prefix| + 1..] == query;
      if |ps| > 0 && forall i :: 0 <= i < |ps| ==> '&' !in ps[i].0 && '&' !in ToText(ps[i].1) {
        forall i | 0 <= i < |ps| ensures '&' !in Queries(ps)[i] {
          assert Queries(ps)[i] == ps[i].0 + "=" + ToText(ps[i].1);
        }
        SplitJoin(Queries(ps), '&');
      }
    }
  }

  /** The decimal text of 100. */
  lemma HundredText()
    ensures IntToString(100) == "100"
  {
    assert NatToString(1) == "1";
    assert NatToString(10) == "10";
  }

  /** The two query pairs of fetchProjects. */
  lemma ProjectsQueries(companyId: nat)
    ensures Queries([("company_id", Num(companyId)), ("limit", Num(100))])
         == ["company_id=" + IntToString(companyId), "limit=100"]
  {
    HundredText();
    assert "company_id" + "=" == "company_id=";
    assert "limit" + "=" + "100" == "limit=100";
  }

  /** fetchProjects asks for the company's projects, at most 100 of them. */
  lemma ProjectsRequestUrl(companyId: nat)
    ensures RequestUrl("/pm/projects", Some([("company_id", Num(companyId)), ("limit", Num(100))]))
         == BaseUrl + "/pm/projects?" + "company_id=" + IntToString(companyId) + "&limit=100"
  {
    ProjectsQueries(companyId);
    var first := "company_id=" + IntToString(companyId);
    assert Join([first, "limit=100"], '&') == first + "&limit=100" by {
      assert Join(["limit=100"], '&') == "limit=100";
    }
    assert BaseUrl + "/pm/projects" + "?" == BaseUrl + "/pm/projects?";
  }
}
