/**
 * `buildOktaDirectory` (okta.js): the groups are listed and then their members
 * loaded, the active users are listed alongside, and once both sides resolved
 * the two are linked. The HTTP server is a parameter: for each initial URL it
 * hands out the pages a paginated listing from that URL receives.
 */
module Okta {
  import opened Results
  import opened Promises
  import opened Pagination
  import opened Upstream
  import opened Members
  import opened Linking

  const GroupsPath := "/api/v1/groups?limit=200"
  const UsersPath := "/api/v1/users?limit=10&filter=status+eq+\"ACTIVE\""

  datatype Api = Api(
    groupPages: string -> seq<Response<Group>>,
    userPages: string -> seq<Response<User>>,
    memberPages: string -> seq<Response<string>>)

  /** `getOktaGroups().then(loadOktaMembers)`. */
  function LoadGroups(api: Api, base: string): Settled<seq<MemberList>, FetchError>
  {
    match GetList(api.groupPages(base + GroupsPath))
    case Resolved(groups) => LoadMembers(groups, api.memberPages)
    case Rejected(e) => Rejected(e)
    case Pending => Pending
  }

  /** `getOktaUsers()`. */
  function LoadUsers(api: Api, base: string): Settled<seq<User>, FetchError>
  {
    GetList(api.userPages(base + UsersPath))
  }

  /** `Promise.all([groups, users])` followed by the linking step. */
  function BuildOktaDirectory(api: Api, base: string): (r: Settled<Directory, FetchError>)
    ensures r.Resolved? ==> WellLinked(r.value)
    ensures r.Resolved? ==> GetList(api.groupPages(base + GroupsPath)).Resolved? && GetList(api.userPages(base + UsersPath)).Resolved?
  {
    var groups := LoadGroups(api, base);
    var users := LoadUsers(api, base);
    if groups.Rejected? then Rejected(groups.error)
    else if users.Rejected? then Rejected(users.error)
    else if groups.Pending? || users.Pending? then Pending
    else Resolved(Link(users.value, groups.value))
  }

  /** The outcome of a listing, as read off its pages. */
  predicate ListingFails<T>(pages: seq<Response<T>>, e: FetchError)
  {
    GetList(pages) == Rejected(e)
  }

  /**
   * A directory is produced exactly when every listing completed: it holds the
   * listed users and groups in listing order, each group's members are the
   * users its member listing names, and every user lists the groups that list
   * it. A failure is the failure of the groups listing, the users listing or
   * one group's member listing.
   */
  lemma BuildOktaDirectoryOutcome(api: Api, base: string)
    ensures var r := BuildOktaDirectory(api, base);
            r.Resolved? ==>
              && GetList(api.groupPages(base + GroupsPath)).Resolved?
              && GetList(api.userPages(base + UsersPath)).Resolved?
              && var groups := GetList(api.groupPages(base + GroupsPath)).value;
                 var users := GetList(api.userPages(base + UsersPath)).value;
                 && WellLinked(r.value)
                 && |r.value.groups| == |groups| && |r.value.users| == |users|
                 && (forall i :: 0 <= i < |users| ==> r.value.users[i].user == users[i])
                 && (forall j :: 0 <= j < |groups| ==>
                       && r.value.groups[j].group == groups[j]
                       && GetList(api.memberPages(groups[j].membersUrl)).Resolved?
                       && r.value.groups[j].members
                          == Resolve(GetList(api.memberPages(groups[j].membersUrl)).value, IndexById(users)))
    ensures var r := BuildOktaDirectory(api, base);
            r.Rejected? ==>
              || ListingFails(api.groupPages(base + GroupsPath), r.error)
              || ListingFails(api.userPages(base + UsersPath), r.error)
              || (&& GetList(api.groupPages(base + GroupsPath)).Resolved?
                  && exists g :: g in GetList(api.groupPages(base + GroupsPath)).value
                                 && ListingFails(api.memberPages(g.membersUrl), r.error))
  {
    var listed := GetList(api.groupPages(base + GroupsPath));
    if listed.Resolved? {
      LoadMembersOutcome(listed.value, api.memberPages);
    }
  }

  /** Whatever the pages, a linked directory keeps both directions of every membership. */
  lemma DirectoryMemberships(api: Api, base: string, i: nat, j: nat)
    requires BuildOktaDirectory(api, base).Resolved?
    requires i < |BuildOktaDirectory(api, base).value.users| && j < |BuildOktaDirectory(api, base).value.groups|
    ensures var d := BuildOktaDirectory(api, base).value;
            d.users[i].groups.Some? && j in d.users[i].groups.value <==> i in d.groups[j].members
  {
    var users := LoadUsers(api, base).value;
    var lists := LoadGroups(api, base).value;
    LinkBidirectional(users, lists, i, j);
  }
}
