/**
 * The Okta records the directory is built from, before and after linking. An
 * object reference of the source is an index into the users or groups sequence.
 */
module Upstream {
  import opened Results
  import opened Json

  /** An active Okta user: its id and its `profile` object (firstName, lastName, email, login, ...). */
  datatype User = User(id: string, profile: seq<Prop>)

  /** An Okta group: its id, its `profile` object (name, description) and the URL listing its members. */
  datatype Group = Group(id: string, profile: seq<Prop>, membersUrl: string)

  /** A group after its members were fetched: the ids of its member records, in listing order. */
  datatype MemberList = MemberList(group: Group, memberIds: seq<string>)

  /** A group after linking: the users (by index) its member ids resolved to. */
  datatype LinkedGroup = LinkedGroup(group: Group, members: seq<nat>)

  /** A user after linking: the groups (by index) it belongs to; `None` when it was in no group. */
  datatype LinkedUser = LinkedUser(user: User, groups: Option<seq<nat>>)

  datatype Directory = Directory(users: seq<LinkedUser>, groups: seq<LinkedGroup>)

  /** Every reference points at an element of the directory. */
  predicate WellLinked(d: Directory)
  {
    && (forall j, k :: 0 <= j < |d.groups| && 0 <= k < |d.groups[j].members| ==> d.groups[j].members[k] < |d.users|)
    && (forall i, k :: 0 <= i < |d.users| && d.users[i].groups.Some? && 0 <= k < |d.users[i].groups.value| ==>
          d.users[i].groups.value[k] < |d.groups|)
  }
}
