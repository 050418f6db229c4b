/** The dormant-user comparison of bin/identify_dormant_github_users.py: which GitHub users have
    no entry among the users the identity provider reports as active. */
module DormantUsers {
  import opened Seqs

  /** `identify_dormant_users`: the GitHub users absent from the active-user list, in their own order. */
  function IdentifyDormantUsers(githubUsers: seq<string>, auditLogs: seq<string>): (dormant: seq<string>)
    ensures forall u :: u in dormant ==> u in githubUsers && u !in auditLogs
    ensures forall u :: u in githubUsers && u !in auditLogs ==> u in dormant
    ensures IsSubsequence(dormant, githubUsers)
    ensures |dormant| <= |githubUsers|
  {
    Filter(githubUsers, u => u !in auditLogs)
  }

  /** A dormant user is listed as many times as the GitHub list holds it. */
  lemma DormantKeepsDuplicates(githubUsers: seq<string>, auditLogs: seq<string>, u: string)
    requires u !in auditLogs
    ensures multiset(IdentifyDormantUsers(githubUsers, auditLogs))[u] == multiset(githubUsers)[u]
  {
    FilterMultiplicity(githubUsers, v => v !in auditLogs, u);
  }

  /** With no active users at all, every GitHub user is dormant, in the same order. */
  lemma NoActiveUsersAllDormant(githubUsers: seq<string>)
    ensures IdentifyDormantUsers(githubUsers, []) == githubUsers
  {
    FilterKeepsAll(githubUsers, u => u !in []);
  }

  /** When every GitHub user is active, nobody is dormant. */
  lemma AllActiveNoneDormant(githubUsers: seq<string>, auditLogs: seq<string>)
    requires forall u :: u in githubUsers ==> u in auditLogs
    ensures IdentifyDormantUsers(githubUsers, auditLogs) == []
  {
    FilterDropsAll(githubUsers, u => u !in auditLogs);
  }
}
