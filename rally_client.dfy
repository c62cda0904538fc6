/** The small helpers of the tracking-service client (utils.py): the configuration check, the
    endpoint normalisation every request repeats, the story-name rule for uploads, and the
    mapping of workspace, project and user-story records to the dashboard's lists. */
module RallyClient {
  import opened Wrappers
  import opened Text
  import opened Counting
  import opened RallyApi

  // ---------------------------------------------------------------- configuration

  /** `config.get(key)`. */
  function LookupSetting(config: map<string, string>, key: string): Option<string> {
    if key in config then Some(config[key]) else None
  }

  /** `check_rally_config`: the service is usable once both its endpoint and its API key are set. */
  function CheckRallyConfig(config: map<string, string>): (ok: bool)
    ensures ok <==> "rally_endpoint" in config && config["rally_endpoint"] != ""
                    && "rally_api_key" in config && config["rally_api_key"] != ""
  {
    Truthy(LookupSetting(config, "rally_endpoint")) && Truthy(LookupSetting(config, "rally_api_key"))
  }

  // ---------------------------------------------------------------- endpoints

  const ApiPath := "/slm/webservice/v2.0"

  /** The base URL every request is built on: trailing slashes removed, then the API path
      appended unless the endpoint already ends with it. */
  function NormalizeEndpoint(endpoint: string): (base: string)
    ensures EndsWith(base, ApiPath)
    ensures var stripped := RStrip(endpoint, '/');
      |stripped| <= |base| <= |stripped| + |ApiPath| && base[..|stripped|] == stripped
  {
    var stripped := RStrip(endpoint, '/');
    if EndsWith(stripped, ApiPath) then stripped else stripped + ApiPath
  }

  /** Normalising an already normalised endpoint changes nothing. */
  lemma NormalizeIdempotent(endpoint: string)
    ensures NormalizeEndpoint(NormalizeEndpoint(endpoint)) == NormalizeEndpoint(endpoint)
  {
    var base := NormalizeEndpoint(endpoint);
    assert base[|base| - 1] == ApiPath[|ApiPath| - 1] == '0';
    assert RStrip(base, '/') == base;
  }

  /** The base URL of `get_rally_projects` as written: normalised first, and only then cut at
      the first `#`. */
  function ProjectsEndpointAsWritten(endpoint: string): (base: string)
    ensures '#' !in base
  {
    BeforeFirst(NormalizeEndpoint(endpoint), '#')
  }

  /** A `#` in the configured endpoint makes the project queries lose the API path. */
  lemma ProjectsEndpointLosesApiPath()
    ensures !EndsWith(ProjectsEndpointAsWritten("#"), ApiPath)
  {
    assert RStrip("#", '/') == "#";
    assert NormalizeEndpoint("#") == "#" + ApiPath;
    assert ProjectsEndpointAsWritten("#") == "";
  }

  /** Whenever the endpoint carries a fragment, the URL as written is the endpoint cut at its first
      `#`: the API path appended after the fragment is lost, and the result ends with the path only
      if the part before `#` already did. */
  lemma ProjectsEndpointDropsFragmentAndApiPath(endpoint: string)
    requires '#' in RStrip(endpoint, '/')
    ensures ProjectsEndpointAsWritten(endpoint) == BeforeFirst(RStrip(endpoint, '/'), '#')
  {
    var stripped := RStrip(endpoint, '/');
    var base := NormalizeEndpoint(endpoint);
    assert base == stripped + base[|stripped|..];
    BeforeFirstAppend(stripped, base[|stripped|..], '#');
  }

  /** A URL copied from the browser, `host#fragment`, loses the fragment and the API path and keeps
      only the host: the API path survives only if the host already ended with it. */
  lemma ProjectsEndpointKeepsOnlyHost(host: string, fragment: string)
    requires '#' !in host
    ensures ProjectsEndpointAsWritten(host + "#" + fragment) == host
    ensures EndsWith(ProjectsEndpointAsWritten(host + "#" + fragment), ApiPath) <==> EndsWith(host, ApiPath)
  {
    var endpoint := host + "#" + fragment;
    var stripped := RStrip(endpoint, '/');
    assert endpoint[|host|] == '#';
    assert |stripped| > |host|;
    assert stripped[|host|] == '#' && stripped[..|host|] == host;
    ProjectsEndpointDropsFragmentAndApiPath(endpoint);
    BeforeFirstAt(stripped, '#', |host|);
  }

  /** The base URL `get_rally_projects` evidently intends: the fragment removed first, then the
      endpoint normalised. */
  function ProjectsEndpoint(endpoint: string): (base: string)
    ensures EndsWith(base, ApiPath)
    ensures '#' !in base
    ensures '#' !in endpoint ==> base == NormalizeEndpoint(endpoint)
  {
    var withoutFragment := BeforeFirst(endpoint, '#');
    assert '#' !in endpoint ==> withoutFragment == endpoint;
    NormalizeAddsOnlyApiPath(withoutFragment, '#');
    NormalizeEndpoint(withoutFragment)
  }

  /** Normalising adds no character other than those of the API path. */
  lemma NormalizeAddsOnlyApiPath(endpoint: string, c: char)
    requires c !in endpoint && c !in ApiPath
    ensures c !in NormalizeEndpoint(endpoint)
  {
    var stripped := RStrip(endpoint, '/');
    assert forall k :: 0 <= k < |stripped| ==> stripped[k] == endpoint[k];
    assert c !in stripped;
  }

  // ---------------------------------------------------------------- user-story upload

  const StoryNameLimit := 60

  /** The name given to an uploaded story: its first line cut to 60 characters, with "..."
      appended when the cut leaves exactly 60. */
  function StoryName(userStory: string): (name: string)
    ensures var firstLine := BeforeFirst(userStory, '\n');
      && (|firstLine| >= StoryNameLimit ==> name == firstLine[..StoryNameLimit] + "...")
      && (|firstLine| < StoryNameLimit ==> name == firstLine)
    ensures |name| <= StoryNameLimit + 3
    ensures '\n' !in name
  {
    var name := Take(BeforeFirst(userStory, '\n'), StoryNameLimit);
    if |name| == StoryNameLimit then name + "..." else name
  }

  // ---------------------------------------------------------------- workspaces

  datatype WorkspaceRecord = WorkspaceRecord(objectId: Option<int>, name: Option<string>)

  datatype WorkspaceRef = WorkspaceRef(id: string, name: string)

  /** `str(n)` for an integer: a minus sign for a negative `n`, then the decimal digits. */
  function DecimalString(n: int): (s: string)
    ensures |s| > 0
    ensures n < 0 ==> s[0] == '-' && IsDigits(s[1..])
    ensures n >= 0 ==> IsDigits(s)
  {
    if n < 0 then "-" + Digits(-n) else Digits(n)
  }

  predicate IsDigits(s: string) {
    |s| > 0 && forall i :: 0 <= i < |s| ==> '0' <= s[i] <= '9'
  }

  /** The decimal digits of `n`, most significant first, without leading zeros. */
  function Digits(n: nat): (s: string)
    ensures IsDigits(s)
    ensures |s| > 1 ==> s[0] != '0'
  {
    var last := ['0' + (n % 10) as char];
    if n < 10 then last else Digits(n / 10) + last
  }

  /** `int(s)` on a string of decimal digits. */
  function ParseDigits(s: string): nat
    requires IsDigits(s)
  {
    var d := (s[|s| - 1] as int - '0' as int) as nat;
    if |s| == 1 then d else ParseDigits(s[..|s| - 1]) * 10 + d
  }

  /** `int(s)` on what `str` produces for an integer. */
  function ParseDecimal(s: string): int
    requires IsDigits(s) || (|s| > 1 && s[0] == '-' && IsDigits(s[1..]))
  {
    if s[0] == '-' then 0 - ParseDigits(s[1..]) as int else ParseDigits(s)
  }

  lemma {:induction false} DigitsRoundTrip(n: nat)
    ensures ParseDigits(Digits(n)) == n
  {
    if n >= 10 {
      DigitsRoundTrip(n / 10);
      var s := Digits(n);
      assert s[..|s| - 1] == Digits(n / 10);
    }
  }

  /** Reading back the decimal string gives the integer again. */
  lemma DecimalRoundTrip(n: int)
    ensures ParseDecimal(DecimalString(n)) == n
  {
    if n < 0 {
      DigitsRoundTrip(-n);
      assert DecimalString(n)[1..] == Digits(-n);
    } else {
      DigitsRoundTrip(n);
    }
  }

  /** Distinct ObjectIDs get distinct workspace ids. */
  lemma DecimalStringInjective(a: int, b: int)
    requires DecimalString(a) == DecimalString(b)
    ensures a == b
  {
    DecimalRoundTrip(a);
    DecimalRoundTrip(b);
  }

  /** A workspace is listed when both its ObjectID and its Name are truthy. */
  predicate IsListed(w: WorkspaceRecord) {
    w.objectId.Some? && w.objectId.value != 0 && Truthy(w.name)
  }

  /** The entry of a listed workspace: `str(ObjectID)` and its Name. */
  function WorkspaceRefOf(w: WorkspaceRecord): WorkspaceRef
    requires IsListed(w)
  {
    WorkspaceRef(DecimalString(w.objectId.value), w.name.value)
  }

  /** The listed workspaces, in order, as id and name: the entry of each listed record. */
  function ListedWorkspaces(records: seq<WorkspaceRecord>): (refs: seq<WorkspaceRef>)
    ensures |refs| == |Filter(records, IsListed)| == Count(records, IsListed)
    ensures forall i :: 0 <= i < |refs| ==> refs[i] == WorkspaceRefOf(Filter(records, IsListed)[i])
    ensures forall i :: 0 <= i < |refs| ==> refs[i].id != "" && refs[i].name != ""
  {
    if records == [] then []
    else
      var init, w := records[..|records| - 1], records[|records| - 1];
      ListedWorkspaces(init) + (if IsListed(w) then [WorkspaceRefOf(w)] else [])
  }

  /** `get_rally_workspaces`: the listed workspaces of a successful response, otherwise none. */
  method GetRallyWorkspaces(response: QueryResponse<WorkspaceRecord>) returns (refs: seq<WorkspaceRef>)
    ensures response.status != HttpOk ==> refs == []
    ensures response.status == HttpOk ==> refs == ListedWorkspaces(response.results)
    ensures |refs| <= |response.results|
  {
    refs := [];
    if response.status == HttpOk {
      var records := response.results;
      for i := 0 to |records|
        invariant refs == ListedWorkspaces(records[..i])
      {
        assert records[..i + 1][..i] == records[..i];
        var w := records[i];
        if w.objectId.Some? && w.objectId.value != 0 && Truthy(w.name) {
          refs := refs + [WorkspaceRef(DecimalString(w.objectId.value), w.name.value)];
        }
      }
      assert records[..|records|] == records;
    }
  }

  // ---------------------------------------------------------------- projects

  datatype ProjectRecord = ProjectRecord(objectId: Option<int>, ref: Option<string>, name: Option<string>)

  /** A project id is the numeric ObjectID when it is truthy, else the last segment of `_ref`. */
  datatype ProjectId = NumericId(n: int) | RefId(segment: string)

  datatype ProjectRef = ProjectRef(id: ProjectId, name: string)

  function ProjectIdOf(p: ProjectRecord): (id: ProjectId)
    ensures p.objectId.Some? && p.objectId.value != 0 ==> id == NumericId(p.objectId.value)
    ensures !(p.objectId.Some? && p.objectId.value != 0) ==>
      var r := p.ref.GetOr("");
      && id.RefId? && '/' !in id.segment && EndsWith(r, id.segment)
      && (|id.segment| < |r| ==> r[|r| - |id.segment| - 1] == '/')
  {
    if p.objectId.Some? && p.objectId.value != 0 then NumericId(p.objectId.value)
    else RefId(AfterLast(p.ref.GetOr(""), '/'))
  }

  function ProjectRefOf(p: ProjectRecord): ProjectRef {
    ProjectRef(ProjectIdOf(p), p.name.GetOr("Unknown Project"))
  }

  /** `get_rally_projects`: `workspace` is the response to the workspace lookup with the
      workspace's `_ref`, `queryErrors` the `Errors` list of the project query. A failed project
      query falls off the end of the function, which returns None. */
  method GetRallyProjects(workspaceStatus: int, workspaceRef: Option<string>,
                          projects: QueryResponse<ProjectRecord>, queryErrors: seq<string>)
    returns (refs: Option<seq<ProjectRef>>)
    ensures workspaceStatus != HttpOk ==> refs == Some([])
    ensures workspaceStatus == HttpOk && workspaceRef.GetOr("") == "" ==> refs == Some([])
    ensures workspaceStatus == HttpOk && workspaceRef.GetOr("") != "" ==>
      && (projects.status != HttpOk ==> refs == None)
      && (projects.status == HttpOk && queryErrors != [] ==> refs == Some([]))
      && (projects.status == HttpOk && queryErrors == [] ==>
            refs.Some? && |refs.value| == |projects.results|
            && forall i :: 0 <= i < |projects.results| ==> refs.value[i] == ProjectRefOf(projects.results[i]))
  {
    if workspaceStatus != HttpOk || workspaceRef.GetOr("") == "" {
      return Some([]);
    }
    if projects.status != HttpOk {
      return None;
    }
    if queryErrors != [] {
      return Some([]);
    }
    var list := ProjectRefs(projects.results);
    return Some(list);
  }

  /** The loop of `get_rally_projects` over the project records. */
  method ProjectRefs(records: seq<ProjectRecord>) returns (list: seq<ProjectRef>)
    ensures |list| == |records|
    ensures forall i :: 0 <= i < |records| ==> list[i] == ProjectRefOf(records[i])
  {
    list := [];
    for i := 0 to |records|
      invariant |list| == i
      invariant forall j :: 0 <= j < i ==> list[j] == ProjectRefOf(records[j])
    {
      var p := records[i];
      list := list + [ProjectRef(ProjectIdOf(p), p.name.GetOr("Unknown Project"))];
    }
  }

  // ---------------------------------------------------------------- user stories

  datatype StoryRecord = StoryRecord(formattedId: Option<string>, name: Option<string>, description: Option<string>)

  datatype UserStoryRef = UserStoryRef(id: string, formattedId: string, name: string, description: string,
                                       displayName: string)

  /** `get_rally_user_stories`: one entry per story of a successful response, identified by its
      FormattedID and shown as "<id>: <name>"; a failed response falls off the end (None). */
  method GetRallyUserStories(response: QueryResponse<StoryRecord>) returns (stories: Option<seq<UserStoryRef>>)
    ensures response.status != HttpOk <==> stories == None
    ensures stories.Some? ==>
      |stories.value| == |response.results|
      && forall i :: 0 <= i < |response.results| ==>
           var s, rec := stories.value[i], response.results[i];
           && s.id == s.formattedId == rec.formattedId.GetOr("")
           && s.name == rec.name.GetOr("Untitled Story")
           && s.description == rec.description.GetOr("")
           && s.displayName == s.id + ": " + s.name
  {
    if response.status != HttpOk {
      return None;
    }
    var list: seq<UserStoryRef> := [];
    for i := 0 to |response.results|
      invariant |list| == i
      invariant forall j :: 0 <= j < i ==>
        var s, rec := list[j], response.results[j];
        && s.id == s.formattedId == rec.formattedId.GetOr("")
        && s.name == rec.name.GetOr("Untitled Story")
        && s.description == rec.description.GetOr("")
        && s.displayName == s.id + ": " + s.name
    {
      var story := response.results[i];
      var storyId := story.formattedId.GetOr("");
      var storyName := story.name.GetOr("Untitled Story");
      list := list + [UserStoryRef(storyId, storyId, storyName, story.description.GetOr(""), storyId + ": " + storyName)];
    }
    return Some(list);
  }
}
