/**
 * The RAG context provider (core/context/providers/RagContextProvider.ts):
 * it relabels what retrieval returns for a chosen group and offers the
 * groups as a submenu, falling back to a fixed list when the group service
 * cannot be reached. Retrieval and the HTTP request are parameters.
 */
module RagProvider {
  import opened Wrappers
  import opened Strings
  import opened ChatTypes

  /** The provider's options; each may be missing. */
  datatype ProviderOptions = ProviderOptions(
    nRetrieve: Option<int>,
    nFinal: Option<int>,
    useReranking: Option<bool>,
    groups: Option<seq<string>>,
    apiBaseUrl: Option<string>)

  /** What is passed to retrieval. */
  datatype RetrievalOptions = RetrievalOptions(nRetrieve: int, nFinal: int, useReranking: bool)

  /** A thrown value: an `Error` with its message, or anything else. */
  datatype Thrown = ErrorWithMessage(message: string) | NotAnError

  /** How retrieval went. */
  datatype Retrieval = Retrieved(items: seq<ContextItem>) | RetrievalThrew(error: Thrown)

  /** `options?.x ?? default` for the three retrieval settings: only a missing value is replaced. */
  function RetrievalOptionsOf(options: Option<ProviderOptions>): (r: RetrievalOptions)
    ensures options.None? ==> r == RetrievalOptions(15, 10, true)
    ensures options.Some? ==> (r.nRetrieve == options.value.nRetrieve.GetOr(15)
                               && r.nFinal == options.value.nFinal.GetOr(10)
                               && r.useReranking == options.value.useReranking.GetOr(true))
  {
    match options
    case None => RetrievalOptions(15, 10, true)
    case Some(o) => RetrievalOptions(o.nRetrieve.GetOr(15), o.nFinal.GetOr(10), o.useReranking.GetOr(true))
  }

  /** The name of the i-th result (counted from 0) of a group. */
  function ResultName(group: string, index: nat): string {
    "RAG: " + group + " (" + NatToString(index + 1) + ")"
  }

  /** The placeholder for a search that found nothing. */
  function NoResultItem(group: string): ContextItem {
    ContextItem("RAG: " + group, "RAG 검색 결과 (그룹: " + group + ")",
                "\"" + group + "\" 그룹에 대한 RAG 검색 결과를 찾을 수 없습니다.", None)
  }

  /** The item reporting a failed search. */
  function ErrorItem(group: string, error: Thrown): ContextItem {
    var detail := if error.ErrorWithMessage? then error.message else "알 수 없는 오류";
    ContextItem("RAG 오류: " + group, "RAG 검색 오류 (그룹: " + group + ")",
                "\"" + group + "\" 그룹에 대한 RAG 검색 중 오류가 발생했습니다: " + detail, None)
  }

  /**
   * `getContextItems`: the query is the group name. No results give one
   * placeholder; results are renamed and their descriptions prefixed, in
   * order, keeping everything else; a failure gives one error item.
   */
  function GetContextItems(group: string, retrieval: Retrieval): (r: seq<ContextItem>)
    ensures retrieval == Retrieved([]) ==> r == [NoResultItem(group)]
    ensures retrieval.RetrievalThrew? ==> r == [ErrorItem(group, retrieval.error)]
    ensures retrieval.Retrieved? && retrieval.items != [] ==>
      |r| == |retrieval.items|
      && forall i | 0 <= i < |r| ::
           r[i].name == ResultName(group, i)
           && r[i].description == "RAG 검색 결과 - " + group + ": " + retrieval.items[i].description
           && r[i].content == retrieval.items[i].content
           && r[i].uri == retrieval.items[i].uri
  {
    match retrieval
    case RetrievalThrew(error) => [ErrorItem(group, error)]
    case Retrieved(items) =>
      if |items| == 0 then [NoResultItem(group)]
      else seq(|items|, i requires 0 <= i < |items| =>
             items[i].(name := ResultName(group, i),
                       description := "RAG 검색 결과 - " + group + ": " + items[i].description))
  }

  /** Whatever happens, at least one item comes back, and every name starts with "RAG". */
  lemma ContextItemsNeverEmpty(group: string, retrieval: Retrieval)
    ensures var r := GetContextItems(group, retrieval);
      r != [] && forall i | 0 <= i < |r| :: StartsWith(r[i].name, "RAG")
  {
    var r := GetContextItems(group, retrieval);
    forall i | 0 <= i < |r|
      ensures StartsWith(r[i].name, "RAG")
    {
      assert r[i].name[..3] == "RAG";
    }
  }

  /** Distinct results of one search get distinct names. */
  lemma ResultNamesDistinct(group: string, i: nat, j: nat)
    requires i != j
    ensures ResultName(group, i) != ResultName(group, j)
  {
    var p := "RAG: " + group + " (";
    var a, b := NatToString(i + 1), NatToString(j + 1);
    if ResultName(group, i) == ResultName(group, j) {
      MiddleEqual(p, a, b, ")");
      NatToStringInjective(i + 1, j + 1);
    }
  }

  /** Equal strings with the same prefix and suffix have the same middle. */
  lemma MiddleEqual(p: string, a: string, b: string, q: string)
    requires p + a + q == p + b + q
    ensures a == b
  {
    assert |a| == |b|;
    assert (p + a + q)[|p|..|p| + |a|] == a;
    assert (p + b + q)[|p|..|p| + |b|] == b;
  }

  /** Different numbers are written differently. */
  lemma NatToStringInjective(m: nat, n: nat)
    requires NatToString(m) == NatToString(n)
    ensures m == n
  {
    IntToStringRoundTrip(m);
    IntToStringRoundTrip(n);
  }

  // ---------------------------------------------------------------- submenu

  /** A submenu entry. */
  datatype SubmenuItem = SubmenuItem(id: string, title: string, description: string)

  /** What the HTTP request brought back: a response with a status and a body, or a failure. */
  datatype FetchOutcome = Response(ok: bool, status: int, statusText: string, body: Json) | FetchFailed(error: string)

  /** The parsed body: an array of group names, or anything else. */
  datatype Json = JsonStrings(values: seq<string>) | OtherJson

  const DefaultApiBase: string := "http://localhost:8001"

  /** The groups offered when the service cannot be reached and no groups are configured. */
  const DefaultGroups: seq<string> := ["authentication", "database", "api", "ui-components", "tests",
                                       "utils", "models", "services", "controllers", "middleware"]

  /** The URL asked: the configured base, unless missing or empty, followed by the groups path. */
  function GroupsUrl(options: Option<ProviderOptions>): (url: string)
    ensures options.Some? && options.value.apiBaseUrl.Some? && options.value.apiBaseUrl.value != "" ==>
      url == options.value.apiBaseUrl.value + "/api/v1/groups"
    ensures options.None? || options.value.apiBaseUrl.None? || options.value.apiBaseUrl.value == "" ==>
      url == DefaultApiBase + "/api/v1/groups"
  {
    var base := if options.Some? && options.value.apiBaseUrl.Some? && options.value.apiBaseUrl.value != ""
                then options.value.apiBaseUrl.value else DefaultApiBase;
    base + "/api/v1/groups"
  }

  /** `fetchGroupNamesFromAPI`: a non-ok status or a body that is not an array is an error. */
  function FetchGroupNames(outcome: FetchOutcome): (r: Result<seq<string>, string>)
    ensures r.Ok? <==> outcome.Response? && outcome.ok && outcome.body.JsonStrings?
    ensures r.Ok? ==> r.value == outcome.body.values
    ensures outcome.Response? && !outcome.ok ==>
      r == Err("API 호출 실패: " + IntToString(outcome.status) + " " + outcome.statusText)
    ensures outcome.Response? && outcome.ok && !outcome.body.JsonStrings? ==> r == Err("API 응답이 배열 형태가 아닙니다")
  {
    match outcome
    case FetchFailed(e) => Err(e)
    case Response(ok, status, statusText, body) =>
      if !ok then Err("API 호출 실패: " + IntToString(status) + " " + statusText)
      else if !body.JsonStrings? then Err("API 응답이 배열 형태가 아닙니다")
      else Ok(body.values)
  }

  /** The groups of the fallback: configured groups when present (an empty array is truthy too), otherwise the defaults. */
  function FallbackGroups(options: Option<ProviderOptions>): (gs: seq<string>)
    ensures options.Some? && options.value.groups.Some? ==> gs == options.value.groups.value
    ensures options.None? || options.value.groups.None? ==> gs == DefaultGroups
  {
    if options.Some? && options.value.groups.Some? then options.value.groups.value else DefaultGroups
  }

  /** The description of a group's entry. */
  const GroupDescriptionSuffix: string := "와 관련된 코드베이스 컨텍스트를 검색합니다"
  /** The note the fallback appends to each description. */
  const FallbackNote: string := " (API 연결 실패로 기본값 사용)"

  /**
   * `loadSubmenuItems`: one entry per fetched group; when the fetch fails,
   * one entry per fallback group, its title marked "(기본값)" and its
   * description noting the failed connection.
   */
  function LoadSubmenuItems(outcome: FetchOutcome, options: Option<ProviderOptions>): (r: seq<SubmenuItem>)
    ensures var fetched := FetchGroupNames(outcome);
      var groups := if fetched.Ok? then fetched.value else FallbackGroups(options);
      |r| == |groups|
      && forall i | 0 <= i < |r| ::
           r[i].id == groups[i]
           && r[i].title == (if fetched.Ok? then groups[i] else groups[i] + "(기본값)")
           && r[i].description == groups[i] + GroupDescriptionSuffix + (if fetched.Ok? then "" else FallbackNote)
  {
    match FetchGroupNames(outcome)
    case Ok(groups) =>
      seq(|groups|, i requires 0 <= i < |groups| =>
        SubmenuItem(groups[i], groups[i], groups[i] + GroupDescriptionSuffix))
    case Err(_) =>
      var groups := FallbackGroups(options);
      seq(|groups|, i requires 0 <= i < |groups| =>
        SubmenuItem(groups[i], groups[i] + "(기본값)",
                    groups[i] + GroupDescriptionSuffix + FallbackNote))
  }

  /** With nothing configured, a failed fetch offers exactly the ten default groups, marked as defaults. */
  lemma UnreachableServiceOffersDefaults(outcome: FetchOutcome)
    requires FetchGroupNames(outcome).Err?
    ensures var r := LoadSubmenuItems(outcome, None);
      |r| == 10 && forall i | 0 <= i < 10 :: r[i].id == DefaultGroups[i] && EndsWith(r[i].title, "(기본값)")
  {
    var r := LoadSubmenuItems(outcome, None);
    forall i | 0 <= i < 10
      ensures EndsWith(r[i].title, "(기본값)")
    {
      var s := DefaultGroups[i] + "(기본값)";
      assert s[|s| - |"(기본값)"|..] == "(기본값)";
    }
  }

  /** Every submenu id, fetched or fallback, is one the retrieval side later receives back as the group name. */
  lemma SubmenuIdsAreGroups(outcome: FetchOutcome, options: Option<ProviderOptions>, i: nat)
    requires i < |LoadSubmenuItems(outcome, options)|
    ensures var id := LoadSubmenuItems(outcome, options)[i].id;
      (FetchGroupNames(outcome).Ok? ==> id in FetchGroupNames(outcome).value)
      && (FetchGroupNames(outcome).Err? ==> id in FallbackGroups(options))
  {
  }
}
