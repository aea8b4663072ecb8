/** The workspace list item (`WorkspaceLink`): it picks the code-server app
    out of a workspace's build resources and splices the editor URL from the
    app's subdomain, the provider's base domain and the app URL's query. */
module WorkspaceLink {
  import opened Wrappers
  import opened Strings
  import opened Lists
  import Applications
  import Query

  datatype App = App(slug: string, subdomainName: string, url: string)
  datatype Agent = Agent(apps: seq<App>)
  datatype Resource = Resource(kind: string, agents: seq<Agent>)
  datatype Build = Build(status: string, resources: seq<Resource>)
  datatype Workspace = Workspace(id: string, name: string, templateDisplayName: string,
                                 latestBuild: Build, lastUsedAt: string)

  const DockerContainer := "docker_container"
  const CodeServer := "code-server"

  predicate IsDockerContainer(r: Resource) { r.kind == DockerContainer }
  predicate IsCodeServer(a: App) { a.slug == CodeServer }

  /** `resources.find(docker_container)?.agents[0]?.apps.find(code-server)`. */
  function EditorApp(resources: seq<Resource>): (r: Option<App>)
    ensures r.Some? ==> r.value.slug == CodeServer
    ensures (forall i :: 0 <= i < |resources| ==> !IsDockerContainer(resources[i])) ==> r.None?
  {
    match Find(resources, IsDockerContainer)
    case None => None
    case Some(res) => if |res.agents| == 0 then None else Find(res.agents[0].apps, IsCodeServer)
  }

  /** Only the first `docker_container` resource and its first agent are
      searched: the result is the first code-server app of that agent. */
  lemma FirstContainerDecides(resources: seq<Resource>, i: nat)
    requires i < |resources| && IsDockerContainer(resources[i])
    requires forall j :: 0 <= j < i ==> !IsDockerContainer(resources[j])
    ensures EditorApp(resources) ==
      if |resources[i].agents| == 0 then None else Find(resources[i].agents[0].apps, IsCodeServer)
  {
    FindFirst(resources, IsDockerContainer, i);
  }

  /** Resources listed after the first container never change the result,
      even when they hold a code-server app. */
  lemma LaterResourcesIgnored(resources: seq<Resource>, more: seq<Resource>, i: nat)
    requires i < |resources| && IsDockerContainer(resources[i])
    ensures EditorApp(resources + more) == EditorApp(resources)
  {
    var k :| 0 <= k < |resources| && IsDockerContainer(resources[k]) &&
             forall j :: 0 <= j < k ==> !IsDockerContainer(resources[j]) by {
      var f := FindIndex(resources, IsDockerContainer);
      assert f.Some? by { assert IsDockerContainer(resources[i]); }
    }
    FirstContainerDecides(resources, k);
    assert (resources + more)[k] == resources[k];
    FirstContainerDecides(resources + more, k);
  }

  /** `url.split('?')[1]`: the text after the first '?' up to the next one. */
  function UrlParams(url: string): (r: Option<string>)
    ensures r.Some? <==> '?' in url
    ensures r.Some? ==>
      (|TakeUntil(url, '?')| < |url| && r.value == TakeUntil(url[|TakeUntil(url, '?')| + 1..], '?'))
  {
    SecondPiece(url, '?');
    Field(url, "?", 1)
  }

  /** The template literal `https://${subdomain_name}.${baseDomain}/?${urlParams}`;
      a missing query renders as the text "undefined". */
  function WorkspaceUrl(app: App, baseDomain: string): (r: string)
    ensures "https://" + app.subdomainName + "." + baseDomain + "/?" <= r
    ensures UrlParams(app.url).None? ==> r[|r| - |"undefined"|..] == "undefined"
    ensures UrlParams(app.url).Some? ==>
      |UrlParams(app.url).value| <= |r| && r[|r| - |UrlParams(app.url).value|..] == UrlParams(app.url).value
  {
    "https://" + app.subdomainName + "." + baseDomain + "/?" + UrlParams(app.url).GetOr("undefined")
  }

  /** In an "https://" URL the first "//" is the one after the scheme. */
  lemma SchemeSeparator(rest: string)
    ensures IndexOf("https://" + rest, "//") == Some(6)
  {
    var url := "https://" + rest;
    assert OccursAt(url, "//", 6) by { assert url[6..8] == "//"; }
    assert url[..6] == "https:";
    forall j: nat | j < 6 ensures !OccursAt(url, "//", j) {
      assert url[j] == "https:"[j];
    }
  }

  /** The base domain of an "https://" URL is its text up to the next '/'. */
  lemma HttpsBaseDomain(rest: string)
    ensures Applications.BaseDomain("https://" + rest) == Some(TakeUntil(rest, '/'))
  {
    SchemeSeparator(rest);
    assert ("https://" + rest)[8..] == rest;
  }

  /** The host of the workspace URL is the app's subdomain of the provider's
      base domain, so the cookies the relay wrote on that domain reach it. */
  lemma WorkspaceUrlOnBaseDomain(app: App, baseDomain: string)
    requires '/' !in app.subdomainName && '/' !in baseDomain
    ensures Applications.BaseDomain(WorkspaceUrl(app, baseDomain)) == Some(app.subdomainName + "." + baseDomain)
  {
    var host := app.subdomainName + "." + baseDomain;
    var query := "?" + UrlParams(app.url).GetOr("undefined");
    assert WorkspaceUrl(app, baseDomain) == "https://" + (host + ['/'] + query);
    HttpsBaseDomain(host + ['/'] + query);
    assert '/' !in host;
    TakeUntilStop(host, query, '/');
  }

  /** The link's `to`: `/editor?workspace=${workspaceUrl}`. */
  function EditorLink(workspaceUrl: string): (r: string)
    ensures '&' !in workspaceUrl && '#' !in workspaceUrl && '+' !in workspaceUrl && '%' !in workspaceUrl ==>
      Query.Get(Query.SearchOf(r), "workspace") == Some(workspaceUrl)
  {
    var r := "/editor?workspace=" + workspaceUrl;
    assert "/editor?workspace=" == "/editor" + "?" + "workspace" + "=";
    assert r == "/editor" + "?" + "workspace" + "=" + workspaceUrl;
    assert '&' !in workspaceUrl && '#' !in workspaceUrl && '+' !in workspaceUrl && '%' !in workspaceUrl ==>
      Query.Get(Query.SearchOf(r), "workspace") == Some(workspaceUrl) by {
      if '&' !in workspaceUrl && '#' !in workspaceUrl && '+' !in workspaceUrl && '%' !in workspaceUrl {
        Query.GetSingleParam(r, "/editor", "workspace", workspaceUrl);
      }
    }
    r
  }

  /** The three-entry `statuses` map; other statuses have no style. */
  function StatusStyle(status: string): (r: Option<string>)
    ensures r.Some? <==> status in {"stopped", "running", "error"}
  {
    if status == "stopped" then Some("text-gray-500 bg-gray-100/10")
    else if status == "running" then Some("text-green-400 bg-green-400/10")
    else if status == "error" then Some("text-rose-400 bg-rose-400/10")
    else None
  }

  datatype Item = Item(target: string, statusStyle: Option<string>, profileName: string,
                       workspaceName: string, templateDisplayName: string, lastUsedAt: string)

  /** What the component renders: nothing without a code-server app, an
      error where the configured URL has no "//", otherwise the list item. */
  datatype Rendered = Nothing | Crashed | Rendered(item: Item)

  function Render(workspace: Workspace, profileName: string, serverApi: string): (r: Rendered)
    ensures r.Nothing? <==> EditorApp(workspace.latestBuild.resources).None?
    ensures r.Crashed? <==>
      EditorApp(workspace.latestBuild.resources).Some? && Applications.BaseDomain(serverApi).None?
    ensures r.Rendered? ==>
      r.item.target == EditorLink(WorkspaceUrl(EditorApp(workspace.latestBuild.resources).value,
                                               Applications.BaseDomain(serverApi).value)) &&
      r.item.statusStyle == StatusStyle(workspace.latestBuild.status)
  {
    match EditorApp(workspace.latestBuild.resources)
    case None => Nothing
    case Some(app) =>
      match Applications.BaseDomain(serverApi)
      case None => Crashed
      case Some(domain) =>
        Rendered(Item(EditorLink(WorkspaceUrl(app, domain)), StatusStyle(workspace.latestBuild.status),
                      profileName, workspace.name, workspace.templateDisplayName, workspace.lastUsedAt))
  }
}
