/** One read of a corporate directory (pkg/directory). */
module Directory {

  datatype User = User(name: string, email: string, live: bool)

  datatype Snapshot = Snapshot(
    source: string,
    users: seq<User>,
    groups: map<string, seq<string>>,
    absentGroups: seq<string>)
}
