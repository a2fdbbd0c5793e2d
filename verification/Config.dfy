/** The service's configuration, as far as the decisions read it (pkg/config). */
module Config {
  import opened Strings
  import opened Text

  datatype Domain = Domain(name: string, syncs: bool)

  datatype Source = Source(name: string, domains: seq<Domain>)

  /** Directory-mapped by groups and member addresses, or pinned. */
  datatype Team = Team(groups: seq<string>, members: seq<string>, pinned: bool)

  datatype Org = Org(
    name: string,
    company: string,
    provenance: string,
    consoleAppSSM: string,
    applierAppSSM: string,
    exceptions: seq<string>,
    teams: map<string, Team>,
    minAdmins: int,
    reconcileEnabled: bool)
  {
    /** A login exempt from reconciliation. */
    predicate IsException(login: string) {
      exists e :: e in exceptions && EqualFold(e, login)
    }
  }

  datatype Config = Config(sources: seq<Source>, orgs: seq<Org>, minAdmins: int)

  /** What validateOrgs guarantees: one organization per name. */
  ghost predicate OrgsDistinct(orgs: seq<Org>) {
    forall i, j :: 0 <= i < j < |orgs| ==> orgs[i].name != orgs[j].name
  }

  /** The text after the first '@', empty when there is none. */
  function EmailDomain(email: string): string {
    var at := IndexOf(email, '@');
    if at < 0 then "" else email[at + 1..]
  }
}
