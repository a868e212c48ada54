# FallingRock core in Dafny

FallingRock is an LDAP front-end over the Okta identity API. This project models its core:

- It fetches the Okta groups, the active users and each group's members, page by page, following `Link: <…>; rel="next"` headers.
- It links users and groups to each other.
- It renders each record through an attribute template (mustache strings, arrays, objects and `__list` expansion nodes).
- It builds an in-memory snapshot from DN string to entry. The snapshot holds synthesized parent containers, then groups, then users.
- It answers admin binds, user binds and base/one/sub searches against the published snapshot.
- It rebuilds the snapshot on an interval and publishes only successful builds.

The model is purely functional:

- An exception or promise rejection is a `Failure` / `Rejected` value.
- A JavaScript object reference is an index into the user or group sequence.
- The snapshot is a map together with its insertion-ordered key list. Searches walk `Object.keys(db)`, so that order is visible to clients.
- The network, the password check and the LDAP filter are parameters:
  - HTTP page results are `string -> seq<Response<_>>` oracles;
  - the password check is `(login, credentials) -> bool`;
  - the filter is `Rendered -> Verdict` (match, no match, or throws).

Modules, one per file:

| module | file | what it models |
|---|---|---|
| `Results` | results.dfy | `Option`, `Result`, and `Collect` (`Array.prototype.map` with a throwing callback) |
| `Promises` | promises.dfy | `Promise.all` over settled promises |
| `Strings` | strings.dfy | `split`, `indexOf`, and the text before the first `@` |
| `Json` | json.dfy | Okta records and views: lookup, dotted paths, truthiness, `String(v)` |
| `Mustache` | mustache.dfy | triple-brace variable rendering |
| `Template` | template.dfy | `interpolateObject` |
| `Defaults` | defaults.dfy | the two default attribute templates |
| `Dn` | dn.dfy | DNs as component sequences: parent, strict ancestor, parse/format |
| `LinkHeader` | link_header.dfy | `getNext` |
| `Pagination` | pagination.dfy | `getOktaList` |
| `Upstream` | upstream.dfy | Okta users, groups and the linked directory |
| `Members` | members.dfy | `loadOktaMembers` in chunks of 20 |
| `Linking` | linking.dfy | the linking loop of `buildOktaDirectory` |
| `Okta` | okta.dfy | `buildOktaDirectory` |
| `Database` | database.dfy | the snapshot object and its key order |
| `Builder` | builder.dfy | `addParents` and the pure body of `buildDatabase` |
| `BuildFacts` | build_facts.dfy | what a built snapshot contains |
| `DefaultBuild` | default_build.dfy | a build with the default templates |
| `Query` | query.dfy | `authorize`, the admin bind, the search handler, the user bind |
| `Reload` | reload.dfy | the reload interval and publishing |

Where the standard and the code disagree, the model follows the code:

- **One-level scope includes the base.** `one` scope returns the base entry itself when it matches (app.js:135-137). Section 4.5.1.2 of RFC 4511 excludes it. `Query.InScope` includes it, and `Query.ScopesNest` states it.
- **A filter error in base scope is not caught.** Only the one/sub loop wraps `req.filter.matches` in `try` (app.js:157-160). In base scope an exception reaches the handler (app.js:123), so `Query.Search` fails with `FilterFailed` there. In one/sub scope the entry counts as a non-match.
- **A reload interval of 0 means 3600 s.** `(reload_secs || 3600) * 1000` turns a configured `0` into 3600 s (app.js:92). Only a negative value disables reloading.
- **An empty DN template throws.** `addParents` on an empty DN template throws, because the root has no `parent()` in ldapjs. The model returns `RootHasNoParent`.
- **A user bind needs an admin session.** The user-bind route is guarded by `authorize` (app.js:174), so it succeeds only on a connection already bound as the admin. After a successful user bind, the connection's bind DN is the user, and every later search is refused (`Query.NoSearchAfterUserBind`).
  - ldapjs sends binds for the admin DN and its descendants to the admin handler. `Query.Bind` models that dispatch.
  - A successful bind sets the connection's bind DN.

## Model

| member | source | states |
|---|---|---|
| Results.Collect | app.js:198 | mapping succeeds iff every element succeeds, keeping each element's value in order; a failure is the first failing element's error |
| Promises.All | okta.js:65-73 | `Promise.all` rejects iff some promise rejects, with the error of the first rejected one in order; it resolves iff all resolve, with their values in order |
| Strings.Before | app.js:52 | the part before the first separator holds no separator, is a prefix of the input, and is followed by the separator when there is one; with no separator it is the whole input |
| Strings.BeforeOfConcat | app.js:52 | `(head + "@" + tail).split('@')[0]` is `head` when `head` has no `@` |
| Strings.JoinSplit | app.js:52 | joining the parts of a split with the separator gives back the text |
| Strings.SplitJoin | app.js:52 | splitting a join of separator-free parts gives back the parts |
| Strings.SplitAt | app.js:52 | a split cuts at the first separator and continues on the text after it |
| Json.DisplayStrings | app.js:212 | an array of strings shows as its strings joined with `,`, so splitting that text at `,` gives them back when none holds a comma |
| Json.DisplayPair | app.js:212 | a two-element array shows as its two elements' text joined by one comma, as `String(array)` does |
| Json.DisplayPieces | app.js:212 | inside a shown array `null` gives an empty piece, a nested array is flattened into the same comma list, and an object shows as `[object Object]` |
| Json.Find | app.js:52 | a property lookup is undefined iff no property has that key, and otherwise is the value of the first property with that key |
| Mustache.Render | app.js:212 | `mustache.render`; its contracts are Mustache.RenderStatic, Mustache.RenderAgrees, Mustache.RenderVariable and Mustache.RenderAppend |
| Mustache.RenderAppend | app.js:212 | segments render left to right: a text split anywhere renders as its two parts joined |
| Mustache.RenderStatic | app.js:212 | a mustache text without variables renders to its own source whatever the view |
| Mustache.RenderAgrees | app.js:212 | rendering reads the view only through the variables' paths: two views that agree on them render alike |
| Mustache.RenderVariable | app.js:212 | a lone `{{{path}}}` renders the text of the value at that path, or nothing when the path is missing |
| Template.ListElements | app.js:202 | `values[field] \|\| []`: a falsy or missing field gives no items, an array gives its elements, and a truthy non-array is an error (iff) |
| Template.Interpolate | app.js:196-217 | a non-string scalar node is an error naming its type; a string goes through mustache; an array renders to an array of the same length; an object renders to exactly its own keys in order; a `__list` node renders one item per listed element |
| Template.InterpolateArray | app.js:197-198 | an array renders iff every element renders against the same view, element by element; a failure is the first failing element's error |
| Template.InterpolateObject | app.js:206-210 | an object renders iff every field renders, each key keeping its name and its field's rendering; a failure is the first failing field's error |
| Template.InterpolateList | app.js:200-205 | a `__list` node renders each element against `{item: element}` only, in order; it fails iff the field is a truthy non-array or some item fails |
| Template.ListReadsOnlySource | app.js:202-204 | a `__list` node's output depends on the view only through the listed field |
| Template.RenderedFits | app.js:196-217 | every successful rendering has its template's shape, node for node |
| Template.WellFormedNeverUnexpected | app.js:213-216 | a template built only of strings, arrays, objects and `__list` nodes with an item never reaches the unexpected-type error |
| Template.ClosedIsConstant | app.js:196-217 | a template without variables or `__list` nodes renders the same for every view |
| Template.SameItems | app.js:197-198 | an array renders alike against two views when each of its elements does |
| Template.SameFields | app.js:206-210 | an object renders alike against two views when each of its fields does |
| Defaults.DefaultsWellFormed | defaults.js:2-25 | both default templates hold only string, array, object and `__list` nodes |
| Defaults.DefaultsFromConfig | defaults.js:2-25 | both default templates are objects a parsed configuration can hold: distinct keys, none named `__list` |
| Defaults.UserClassesRender | defaults.js:3 | the user `objectClass` renders to top, person, organizationalPerson, inetOrgPerson whatever the record |
| Defaults.UserFieldRenders | defaults.js:3-10 | every user attribute before `memberOf` renders for any record |
| Defaults.DefaultUserRenders | defaults.js:2-15 | the default user template fails only when `groups` is truthy but not an array |
| Defaults.DefaultGroupRenders | defaults.js:17-25 | the default group template fails only when `members` is truthy but not an array |
| Defaults.DnList | defaults.js:11-14 | an `{{{item.dn}}}` list renders the `dn` of each listed element, in order |
| Defaults.DnListRenders | defaults.js:11-14 | an `{{{item.dn}}}` list renders iff its source is missing, falsy or an array |
| Defaults.UserAttrsAt | defaults.js:2-15 | the rendered user attributes have the template's nine names in order, with the fixed classes, `cn` equal to `displayName`, `mail`, `uid` and `memberOf` as the template gives them |
| Defaults.DefaultUserAttributes | defaults.js:2-15 | looking up by name: `objectClass` is the fixed list, `cn` equals `displayName`, `uid` is `shortName`, `mail` is the profile email, and `memberOf` is each group's `dn` in order |
| Defaults.GroupAttrsAt | defaults.js:17-25 | the rendered group attributes have the template's four names in order, with `objectClass` groupOfNames, `cn` the profile name and `member` the member DNs |
| Defaults.DefaultGroupAttributes | defaults.js:17-25 | looking up by name: `objectClass` is groupOfNames, `cn` is the group's profile name, and `member` is each member's `dn` in order |
| Dn.Parse | app.js:29 | a parsed DN is a sequence of `attr=value` components |
| Dn.ParseFormat | app.js:48 | formatting a DN and parsing it back gives the DN |
| Dn.FormatParse | app.js:54 | for the simplified parser, printing an accepted text back with `,` between components gives that text unchanged |
| Dn.FormatNonEmpty | app.js:32-33 | a DN prints as the empty string iff it is the root |
| Dn.StrictAncestorStep | app.js:146 | `a` is a strict ancestor of `d` iff it is `d`'s parent or a strict ancestor of that parent |
| Dn.NonRootAncestorsAre | app.js:28-38 | the set `addParents` walks is exactly the non-root strict ancestors |
| LinkHeader.BracketedMatch | okta.js:8 | a bracketed `http` URL free of `>` matches exactly when `; rel="next"` follows the bracket, and then yields the URL |
| LinkHeader.RelIsNext | okta.js:8 | the text after an entry's bracket starts with `; rel="next"` iff the entry's relation is `next` |
| LinkHeader.QuotedNext | okta.js:8 | a quote-free relation followed by `"` that reads `next"` is exactly `next` |
| LinkHeader.MatchHere | okta.js:8 | a match at a position is `<http…>; rel="next"` with a URL longer than `http` and free of `>` |
| LinkHeader.EntryMatch | okta.js:8 | a well-formed link entry matches iff its rel is `next`, yielding its URL |
| LinkHeader.NextLink | okta.js:5-10 | no header or an empty header gives null; a found link is an `http` URL longer than `http` and free of `>`; the full contract is LinkHeader.NextLinkFindsFirstNext |
| LinkHeader.Scan | okta.js:8-9 | whatever the scan finds is an `http` URL longer than `http` and free of `>` |
| LinkHeader.NextLinkFindsFirstNext | okta.js:5-10 | on a header made of well-formed entries, `getNext` returns the URL of the first `rel="next"` entry, or null when there is none |
| LinkHeader.ScanHeader | okta.js:8-9 | the regular-expression scan over the header text finds the first next entry |
| LinkHeader.ScanPastEntry | okta.js:8-9 | the scan finds nothing inside an entry whose relation is not `next` and moves on past it |
| LinkHeader.ScanPastSeparator | okta.js:8-9 | the scan finds nothing in the `, ` between two entries |
| Pagination.Lead | okta.js:26-29 | the number of pages reached before one without a next link |
| Pagination.FollowExpected | okta.js:14-35 | following pages from an accumulator appends the expected bodies to it, or rejects or stays pending as the reference says |
| Pagination.GetList | okta.js:12-41 | the listing stays pending iff every page given pointed to a further one; it resolves only at an OK page; a rejection is the error of the first page that was not OK; the full contract is Pagination.GetListIsExpected |
| Pagination.GetListIsExpected | okta.js:12-41 | `getOktaList` resolves with the concatenation of every page body up to the first page without a next link; it rejects with the first failing page's error or `errorSummary`, with no partial result |
| Pagination.Requests | okta.js:26-29 | the URLs requested are the initial one and then each page's next link, in order |
| Members.Chunks | okta.js:57-58 | at least one chunk is produced, even for no groups |
| Members.ChunksPartition | okta.js:54-58 | the chunks concatenate back to the groups; every chunk but the last holds exactly 20; the count is the ceiling of n/20 |
| Members.ChunksFlatten | okta.js:57-58 | the chunks concatenate back to the groups, in order |
| Members.ChunksCount | okta.js:57-58 | there are ceiling(n/20) chunks, and one for no groups |
| Members.ChunksSizes | okta.js:57-58 | every chunk but the last holds exactly 20 groups; the last holds 1 to 20 unless there are no groups |
| Members.FortyFiveGroups | okta.js:54-70 | 45 groups load as chunks of 20, 20 and 5 |
| Members.Started | okta.js:65-70 | the chunks started are a prefix of all chunks, and each one before the last started resolved |
| Members.LoadMembers | okta.js:53-78 | `loadOktaMembers`; its contract is Members.LoadMembersOutcome |
| Members.LoadChunksResolved | okta.js:56-70 | when all chunks resolve, the loaded lists are the groups in order with each group's member listing |
| Members.LoadChunksRejected | okta.js:71-73 | a rejection is some group's member-listing rejection |
| Members.LoadMembersOutcome | okta.js:53-78 | on success the same groups come back in order, each with the ids of its fetched members, after every chunk ran; any failure is some group's listing failure |
| Linking.IndexById | okta.js:92-95 | `usersById` holds exactly the user ids, each mapped to the last user with that id |
| Linking.IndexByIdVisible | okta.js:92-95 | a user is the one `usersById` keeps iff no later user has the same id |
| Linking.Resolve | okta.js:99-108 | the members list holds exactly the known ids' users, and keeps the length when every id is known |
| Linking.ResolveAppend | okta.js:100-107 | resolving a concatenation resolves each part in order |
| Linking.PushAllSpec | okta.js:103-104 | pushing a group for its members adds it to each member's list once per occurrence |
| Linking.MembershipsSpec | okta.js:96-109 | each user's accumulated group list equals the reference built group by group |
| Linking.GroupsOfMember | okta.js:100-106 | a group is in a user's reference list iff the user is among its members |
| Linking.GroupsOfSorted | okta.js:97-106 | a user's group list follows group order |
| Linking.ResolvedMembers | okta.js:99-108 | every group's members are the resolution of its id list, and every index is in range |
| Linking.Link | okta.js:85-110 | linking keeps both sequences' lengths, order and records, and every reference is in range |
| Linking.LinkBidirectional | okta.js:100-106 | `g ∈ u.groups` iff `u ∈ g.members`, iff the user's id is listed in the group and the user is the one `usersById` kept |
| Linking.LinkUserGroups | okta.js:103 | a user gets no `groups` field iff it is in no group; otherwise the groups follow group order |
| Linking.LinkGroupMembers | okta.js:99-108 | a group's members are its listed ids that name fetched users, in list order, and none is dropped when all are known |
| Okta.BuildOktaDirectory | okta.js:80-112 | a resolved directory has both listings resolved and every reference in range; the full contract is Okta.BuildOktaDirectoryOutcome |
| Okta.BuildOktaDirectoryOutcome | okta.js:80-111 | the directory resolves only when both listings resolve, and then links every group's fetched members to the fetched users; a rejection is a failure of the group listing, the user listing or some group's member listing |
| Okta.DirectoryMemberships | okta.js:100-106 | in a built directory, user i lists group j iff group j lists user i |
| Database.Put | app.js:36 | an assignment keeps every key listed exactly once in the key order |
| Database.PutAllKeys | app.js:57-68 | after a run of assignments the keys are the old keys plus the written ones |
| Database.PutAllLast | app.js:61-68 | a written key holds its last write |
| Database.PutAllKept | app.js:57-68 | a key no assignment touches keeps its entry |
| Database.PutAllOrder | app.js:152 | existing keys keep their place, and new keys follow in order of first assignment |
| Database.FreshSpec | app.js:152 | the order reference lists exactly the keys not seen before, each once |
| Database.FreshOrder | app.js:152 | a key first assigned earlier is listed before one first assigned later |
| Database.PutAllAppend | app.js:57-68 | two runs of assignments equal their concatenation |
| Database.PutAllUniform | app.js:36 | a key every assignment gives the same entry holds that entry |
| Database.FreshAppend | app.js:152 | the order over two runs is the first run's new keys, then the second run's keys new after it |
| Builder.OrDefault | app.js:22-26 | a truthy configured template is kept and a falsy or missing one is replaced by the default; the result is always truthy |
| Builder.ParseDn | app.js:47-48 | a DN text is accepted iff the simplified parser accepts it, and then the comma-joined print-back is the text itself; otherwise the build fails with InvalidDn |
| Builder.ShortName | app.js:52 | a user has a short name iff its email is a string; the name is a prefix of the email free of `@`; with no email the build throws |
| Builder.ShortNameOfAddress | app.js:52 | the short name of `mailbox@domain` is `mailbox` |
| Builder.GroupDns | app.js:46-49 | the DN pass succeeds iff every group's DN renders and parses, keeping each group's DN in order; a failure is the first failing group's error |
| Builder.NameUsers | app.js:51-55 | the naming pass succeeds iff every user gets a short name and a parsable DN, keeping each user's in order; a failure is the first failing user's error |
| Builder.GroupAttributes | app.js:61-64 | the group pass succeeds iff every group's attribute template renders against its view, keeping each rendering in group order |
| Builder.UserAttributes | app.js:65-68 | the user pass succeeds iff every user's attribute template renders against its view, keeping each rendering in user order |
| Builder.TemplateBase | app.js:29-35 | a DN template can be walked iff it parses to a non-root DN, which is then the start of the walk; the root fails with RootHasNoParent and unparsable text with InvalidDn |
| Builder.AddParents | app.js:28-38 | `addParents` succeeds iff the DN template parses to a non-root DN, keeping every key listed once; an unparsable template fails with InvalidDn and the root with RootHasNoParent; the contents are Builder.AddParentsSpec |
| Builder.AddParentsSpec | app.js:28-38 | `addParents` adds exactly the non-root strict ancestors of the DN as empty containers and leaves every other key alone; it fails for an unparsable DN and for the root |
| Builder.BuildDatabase | app.js:43-71 | a built snapshot lists each key once in its order |
| Builder.Planned | app.js:46-68 | a successful plan has one DN and one rendering per group and per user |
| Builder.BuildIsPlan | app.js:46-68 | the build fails iff a step fails, with that step's error; it succeeds with the plan's writes applied to an empty snapshot |
| Builder.ParentKeys | app.js:28-38 | the container writes cover exactly the non-root ancestors, each with empty attributes |
| Builder.ParentWritesStore | app.js:28-38 | after the container writes the keys are the old ones plus the non-root ancestors, each ancestor is an empty container, and every other key keeps its entry |
| BuildFacts.PlanParts | app.js:46-68 | each step of a successful build succeeded with the planned value |
| BuildFacts.PlanSteps | app.js:46-68 | every group and user DN is assigned before any attribute template is rendered, and each rendering uses the final DNs |
| BuildFacts.WritesLayout | app.js:57-68 | the writes are the containers, then the groups in order, then the users in order |
| BuildFacts.Stored | app.js:57-68 | the snapshot built from a plan lists each key once |
| BuildFacts.StoredKeys | app.js:57-68 | the snapshot's keys are both templates' ancestors plus every group DN plus every user DN, in order of first assignment |
| BuildFacts.StoredUser | app.js:65-68 | a user DN holds the last user assigned to it |
| BuildFacts.StoredGroup | app.js:61-64 | a group DN no user takes holds the last group assigned to it |
| BuildFacts.StoredContainer | app.js:58-59 | an ancestor that no group or user takes is an empty container |
| BuildFacts.StoredContents | app.js:57-68 | the key set and order of the snapshot; on a DN collision users overwrite groups and groups overwrite containers |
| BuildFacts.BuildStores | app.js:45-71 | a build succeeds with exactly the stored plan, or fails with the first failing step's error |
| DefaultBuild.UserViewShortName | app.js:52-53 | the user view carries the short name the build assigned |
| DefaultBuild.UserViewGroups | app.js:65-66 | the user view's `groups` are the user's linked groups, each with its final DN, or an empty list when it has none |
| DefaultBuild.GroupElementDns | app.js:65-66 | the elements of a user's `groups` carry each group's final DN, in order |
| DefaultBuild.GroupViewMembers | app.js:61-62 | the group's attribute view lists exactly its members, each with its short name and final DN |
| DefaultBuild.MemberElementDns | app.js:61-62 | the elements of a group's `members` carry each member's final DN, in order |
| DefaultBuild.UserViewLookups | app.js:51-55 | the user's attribute view carries the assigned short name, and its `groups` render to the groups' final DNs |
| DefaultBuild.GroupViewLookups | app.js:61-62 | the group's attribute view lists its members, rendering to their final DNs |
| DefaultBuild.UserDefaults | app.js:65-66 | the default user template renders `uid` as the short name and `memberOf` as the group DNs |
| DefaultBuild.GroupDefaults | app.js:61-62 | the default group template renders `member` as the member DNs |
| DefaultBuild.PlannedUser | app.js:51-55 | with the default user template, a planned user's short name is its email's mailbox, its `uid` is that name and its `memberOf` lists its groups' final DNs |
| DefaultBuild.PlannedGroup | app.js:61-64 | with the default group template, a planned group's `member` lists its members' final DNs |
| DefaultBuild.DefaultBuildAttributes | app.js:46-68 | with the default templates, each user's `uid` is the local part of its email and `memberOf` lists its groups' final DNs; each group's `member` lists its members' final DNs |
| DefaultBuild.DefaultsRenderAlways | app.js:46-68 | with the default templates, a build succeeds iff every DN is assigned and both DN templates have a parent |
| Query.Authorize | app.js:78-85 | a request passes iff the connection is bound as the admin, and otherwise fails with InsufficientAccessRights |
| Query.AdminBind | app.js:99-110 | an admin bind succeeds iff the DN is the admin and the password matches; the DN check (NoSuchObject) comes before the password check (InvalidCredentials) |
| Query.Emit | app.js:152-168 | the search loop sends no more results than there are keys |
| Query.EmitDistinct | app.js:152-168 | over distinct keys the loop sends results with pairwise distinct DNs, so no entry is answered twice |
| Query.Search | app.js:112-172 | a search succeeds only for the admin and an existing base |
| Query.EmitSpec | app.js:152-168 | the loop sends exactly the in-scope keys whose attributes match, with their stored attributes |
| Query.EmitAppend | app.js:152-168 | the loop's output over two key runs is their outputs in order |
| Query.SearchResults | app.js:112-172 | not admin gives InsufficientAccessRights; a missing base gives NoSuchObject; only a base-scope filter error fails otherwise; the results are exactly the matching in-scope entries with their stored attributes, in key order, each DN at most once; base scope yields at most the base |
| Query.ScopesNest | app.js:133-149 | one scope includes the base; base ⊆ one ⊆ sub |
| Query.SubtreeBelow | app.js:144-147 | sub scope holds exactly the keys that end with the base's components |
| Query.UserBind | app.js:174-189 | a user bind succeeds only on an admin connection, for a user entry whose login the password check accepts; a missing or non-user entry gives NoSuchObject; a rejected password gives InvalidCredentials |
| Query.Bind | app.js:99-110 | a bind sets the connection's bind DN on success and leaves it on failure |
| Query.BindOutcomes | app.js:99-110 | the admin DN binds iff the password matches; its descendants are refused with NoSuchObject; any other successful bind was a user bind from an admin session |
| Query.NoSearchAfterUserBind | app.js:78-85 | after a successful user bind the connection can no longer search |
| Reload.ReloadIntervalMs | app.js:92 | the interval is whole seconds in milliseconds, 3600 s when unset |
| Reload.ReloadRule | app.js:92-95 | reloading is scheduled iff the setting is unset or non-negative, and then at least every second; 0 behaves like unset; any other value is taken in seconds |
| Reload.Rebuild | app.js:43-76 | a rebuilt snapshot lists each key once |
| Reload.LinkedWell | okta.js:85-110 | a built directory's references are in range |
| Reload.Tick | app.js:70-75 | a reload never starts or stops serving and keeps the interval |
| Reload.Run | app.js:91-95 | a server is serving iff its first build resolved, and then keeps the configured interval; what it publishes is Reload.RunPublishesLastBuild |
| Reload.RunPublishesLastBuild | app.js:70-95 | a server starts only if the first build succeeds; afterwards the published snapshot is the last successful build (the first one if reloading is off); failed builds leave it untouched |

## Left out

- Command-line parsing, YAML configuration loading and logging (app.js:7-18 and every `winston` call) are I/O. The configuration is a `Config` value.
- The ldapjs server is not modelled: `createServer`, route registration, `res.send`/`res.end` and `listen`. Search results are returned as a sequence, and a completed handler is a `Success`.
- DN parsing is simplified. `ldap.parseDN` escaping, whitespace and case normalisation (section 3 of RFC 4514) are not modelled. A DN is a sequence of `attr=value` components split on `,`, printed back joined with `,`.
- Mustache supports only what the templates use: literal text and triple-brace variables over object properties. There are no double-brace HTML escaping, sections, partials, or numeric path steps into arrays. A template text is kept already split into segments.
- Filter evaluation (`req.filter.matches`) is an oracle returning match, no match or throws.
- HTTP requests, headers and tokens are not modelled. Each URL's sequence of page responses is given; a page either fails (transport error or non-200 with `errorSummary`) or carries a body and an optional `Link` header. A listing whose pages run out before a page without a next link stays pending.
- `checkUserAndPassword` is a boolean oracle on the profile's `login` and the credentials. A transport error inside its callback is not modelled.
- Concurrency inside a chunk and between the group and user listings is not modelled. When several promises reject, the model picks the lowest-index rejection, and in `buildOktaDirectory` the group side before the user side.
- Reload timing (`setInterval`, Node's clamping of the delay, overlapping rebuilds finishing out of order) is left out. A run is a sequence of build outcomes in completion order.
- In the template views, object references are cut at one level. A user's `groups` carry each group's fields and `dn`, and a group's `members` carry each user's fields and `dn`, but not the back-references. The default templates read only `dn` through them.
- Dn.FormatParse / Builder.ParseDn: stored keys and rendered DNs keep the template's rendered text verbatim. ldapjs's `toString()` would print `cn=x, ou=y`, with a space after each comma and lower-cased attribute types, and those normalized strings are what app.js stores as keys and renders into `memberOf` and `member`. Modelling them needs the full ldapjs parser and printer.
- `config.admin.password` is a string here. A password that YAML reads as a number never equals the string credentials under `!==` (app.js:104), so that admin can never bind; the model does not represent that configuration.
- Reload.Tick: a failed rebuild is rethrown (app.js:74) into a promise nobody handles (app.js:94). Whether the process survives depends on Node's unhandled-rejection mode, which terminates the process by default since Node 15. The model assumes the server keeps serving the last published snapshot.
- Okta records keep only `id`, `profile` and the members URL. Numbers are integers. A `reload_secs` given as a string is not modelled.
- Linking.IndexById: `userId in usersById` also accepts inherited keys such as `constructor`. This is not modelled; only fetched user ids are found.
