# Operations Engineering GitHub monitoring scripts: a Dafny model

This project models the core of a set of scripts that watch the Ministry of Justice GitHub
organisations, and proves properties of the model:

- **Inactive team members** (`InactiveUsers`).
  - Each self-managed team's settings are loaded from the configuration.
  - GitHub is asked which team members have been inactive over the last months.
  - Those members are removed when the team asks for it.
  - The team's Slack channel gets a summary naming who was removed, or only seen.
- **Version pinning** (`VersionPinning`).
  - The workflow directory is walked for `.yml`/`.yaml` files.
  - Every step `uses:` that contains `@v` is flagged, unless it contains `actions/` or `ministryofjustice` anywhere. So a third-party action such as `aws-actions/...` is not flagged either.
  - The flagged lines are reported.
- **Dormant users** (`DormantUsers`). The GitHub users who do not appear among the active users.
- **Actions quota** (`ActionsQuota`).
  - The GitHub Actions minutes used across the enterprise's organisations are added up.
  - The total is expressed as a percentage of the 50000-minute quota.
  - A low-quota warning goes out when that percentage reaches the stored alerting threshold. The threshold then rises by 10.
- **Joiner metrics** (`JoinerMetrics`).
  - The new members of the last 7 days are split into those added by Operations Engineering and those added externally.
  - The share added by Operations Engineering is computed.
  - The Slack summary is built.
- **`MojGithub`** (`MojGithubLib`).
  - Cached `all`/`public`/`private` repository lists, without forks.
  - `get_unarchived_repos`, which also drops archived repositories.

Shared pieces:
- `Wrappers`: `Option` and `Result`.
- `Text`: the string operations the scripts use (`startswith`, `endswith`, `in`, `lstrip`, `"\n".join`, `split`, `str(int)`).
- `Seqs`: `Filter`, the list comprehension / `filter` of the scripts, with its algebra.

Where the scripts work step by step, the model is imperative. Each loop is a Dafny method proved against a specification function. In the inactive-users report, the quota alert and `MojGithub`, the services are objects that record the state-changing and messaging calls they receive. The contracts of `CreateReport`, `AlertOnLowQuota` and the `MojGithub` methods state those recorded calls exactly. Which calls are not recorded is listed under "## Left out". Where the scripts only compute a value, the model is functions and lemmas.

Behaviour of the inactive-users report worth knowing, which the model keeps:
- The loader's first missing required key (`github_team`, then `remove_from_team`) raises `KeyError` and ends the whole run. No later team is processed: `InactiveUsers.ReportRunStopsAtFirstError`.
- Users on a team's ignore list are not filtered out of the answer of `get_inactive_users` afterwards. The list is only passed to that call.
- Removal is one call per team, with no per-user success or failure.
- An absent `users_to_ignore` / `repositories_to_ignore` loads as the type alias `list[str]`, not as an empty list (`InactiveUsers.IgnoreList.ListStrAlias`).

The joiner summary that `main` sends carries the fixed texts `"new members from ops eng"` and `"new external members"`, not the member lines it builds in its loop. The model does the same: `JoinerMetrics.OpsEngPlaceholder` and `JoinerMetrics.ExternalPlaceholder`.

## Model

| member | source | states |
|---|---|---|
| DormantUsers.IdentifyDormantUsers | bin/identify_dormant_github_users.py:25-26 | a user is dormant iff it is a GitHub user absent from the active list; the result keeps the GitHub users' order and is no longer than the input |
| DormantUsers.DormantKeepsDuplicates | bin/identify_dormant_github_users.py:25-26 | an inactive user appears in the result exactly as many times as in the GitHub user list |
| DormantUsers.NoActiveUsersAllDormant | bin/identify_dormant_github_users.py:25-26 | with no active users, every GitHub user is dormant, in order |
| DormantUsers.AllActiveNoneDormant | bin/identify_dormant_github_users.py:25-26 | when every GitHub user is active, nobody is dormant |
| MojGithubLib.ArmOf | scripts/python/lib/MojGithub.py:62-70 | each arm of the `match` is taken exactly for its literal: "all", "public", "private" and the literal "_" (not a wildcard) |
| MojGithubLib.RepoTypesAreKnown | scripts/python/lib/MojGithub.py:55-70 | a list is returned exactly for the three repository types "all", "public", "private" |
| MojGithubLib.ExcludeArchivedRepos | scripts/python/lib/MojGithub.py:72-76 | a repository is kept iff it is in the input and not archived; order is kept |
| MojGithubLib.ExcludeForkRepos | scripts/python/lib/MojGithub.py:78-82 | a repository is kept iff it is in the input and not a fork; order is kept |
| MojGithubLib.ExclusionsCommute | scripts/python/lib/MojGithub.py:72-82 | dropping forks and dropping archived repositories give the same list in either order |
| MojGithubLib.ExcludeArchivedIdempotent | scripts/python/lib/MojGithub.py:72-76 | dropping archived repositories twice is dropping them once |
| MojGithubLib.IncorrectParameterMessage | scripts/python/lib/MojGithub.py:70 | the logged message is the fixed text followed by the type, which can be read back from it |
| MojGithubLib.MojGithub.constructor | scripts/python/lib/MojGithub.py:15-20 | the organisation's repository source is fixed and the three caches start empty |
| MojGithubLib.MojGithub.GetRepoType | scripts/python/lib/MojGithub.py:84-98 | one `get_repos(type)` call, whose answer is returned without forks |
| MojGithubLib.MojGithub.Repos | scripts/python/lib/MojGithub.py:22-31 | the non-fork "all" repositories; fetched only when the cache is empty, afterwards the cached list with no call; other caches untouched |
| MojGithubLib.MojGithub.PublicRepos | scripts/python/lib/MojGithub.py:33-42 | as `Repos`, for "public" and its own cache |
| MojGithubLib.MojGithub.PrivateRepos | scripts/python/lib/MojGithub.py:44-53 | as `Repos`, for "private" and its own cache |
| MojGithubLib.MojGithub.GetUnarchivedRepos | scripts/python/lib/MojGithub.py:55-70 | a list exactly for a known type, holding that type's repositories that are neither forks nor archived; the listing comes through that type's cache, which is filled if it was empty, with one `get_repos` call then and none otherwise, and the other two caches are unchanged; an error is logged only for the literal "_"; an unknown type makes no `get_repos` call and leaves the caches alone |
| ActionsQuota.TotalMinutesAppend | bin/alert_on_low_github_actions_quota.py:14-22 | the total over two lists of organisations is the sum of their totals |
| ActionsQuota.TotalMinutesNonNegative | bin/alert_on_low_github_actions_quota.py:14-22 | with no organisation reporting negative minutes, the total is not negative |
| ActionsQuota.CalculateTotalMinutesUsed | bin/alert_on_low_github_actions_quota.py:14-22 | the loop returns the sum of every organisation's minutes, and 0 for no organisations |
| ActionsQuota.PercentageUsed | bin/alert_on_low_github_actions_quota.py:6-9 | the percentage times the 50000-minute quota is 100 times the minutes used |
| ActionsQuota.FullQuotaIsHundredPercent | bin/alert_on_low_github_actions_quota.py:6-9 | the full quota is 100%, and 100% or more is reached iff the minutes used reach the quota |
| ActionsQuota.ThresholdReachedIff | bin/alert_on_low_github_actions_quota.py:35-41 | the percentage reaches a threshold iff 100 times the minutes reach the threshold times the quota |
| ActionsQuota.NextThreshold | bin/alert_on_low_github_actions_quota.py:41-43 | the threshold never goes down, and it changes iff the run alerts |
| ActionsQuota.ThresholdCountsAlerts | bin/alert_on_low_github_actions_quota.py:39-43 | over successive runs, the threshold grows by 10 per alert sent, and there is at most one alert per run |
| ActionsQuota.ThresholdStaysNearUsage | bin/alert_on_low_github_actions_quota.py:39-43 | while usage stays at or below a ceiling, the threshold after any number of runs is either where it started or at most 10 above that ceiling |
| ActionsQuota.QuotaServices.ResetAlertingThresholdIfFirstDayOfMonth | bin/alert_on_low_github_actions_quota.py:37 | on the first day of the month the stored threshold becomes the reset value, otherwise it is kept; the call is recorded |
| ActionsQuota.QuotaServices.GetGhaMinutesQuotaThreshold | bin/alert_on_low_github_actions_quota.py:39 | returns the stored threshold without changing it; the call is recorded |
| ActionsQuota.QuotaServices.ModifyGhaMinutesQuotaThreshold | bin/alert_on_low_github_actions_quota.py:43 | the stored threshold becomes the given value; the call is recorded |
| ActionsQuota.QuotaServices.SendLowQuotaWarning | bin/alert_on_low_github_actions_quota.py:42 | the warning goes to the channel and the threshold is unchanged |
| ActionsQuota.AlertOnLowQuota | bin/alert_on_low_github_actions_quota.py:24-43 | reset, then read the threshold; a warning and a raise by 10 happen exactly when usage reached the threshold read; the new threshold is `NextThreshold` of it |
| JoinerMetrics.MemberLinesAppend | bin/fetch_github_joiner_metrics.py:60-66 | the lines of two member lists are the concatenation of their lines |
| JoinerMetrics.AddedByOpsEng | bin/fetch_github_joiner_metrics.py:60-64 | a new member is in the Operations Engineering group iff an Operations Engineering login added them |
| JoinerMetrics.AddedExternally | bin/fetch_github_joiner_metrics.py:60-66 | a new member is in the external group iff someone else added them |
| JoinerMetrics.GroupsPartitionMembers | bin/fetch_github_joiner_metrics.py:59-66 | the two groups split the new members: their sizes add up and their multisets together are the members' |
| JoinerMetrics.AddedByOpsEngSnoc | bin/fetch_github_joiner_metrics.py:62-64 | one more member joins the Operations Engineering group exactly when its adder is in that team |
| JoinerMetrics.AddedExternallySnoc | bin/fetch_github_joiner_metrics.py:65-66 | one more member joins the external group exactly when its adder is not in that team |
| JoinerMetrics.TallyStep | bin/fetch_github_joiner_metrics.py:60-66 | one loop iteration appends the member's line to exactly one group's text and counts it only for Operations Engineering |
| JoinerMetrics.NoMembersNoLines | bin/fetch_github_joiner_metrics.py:53-59 | with no new members, both texts stay empty |
| JoinerMetrics.OpsEngShareIsFraction | bin/fetch_github_joiner_metrics.py:68 | the share added by Operations Engineering lies between 0 and 1 |
| JoinerMetrics.MessageMentionsCounts | bin/fetch_github_joiner_metrics.py:27-41 | the summary names the number of joiners, the number of days and the organisation |
| JoinerMetrics.MessageMentionsTexts | bin/fetch_github_joiner_metrics.py:27-41 | the summary holds both group texts, the percentage and the audit-log link |
| JoinerMetrics.NewMembersDetectedMessage | bin/fetch_github_joiner_metrics.py:27-41 | the summary ends with the bot's signature, whatever is passed in |
| JoinerMetrics.AuditLogUrlShape | bin/fetch_github_joiner_metrics.py:44 | the audit-log link is a GitHub address that names the organisation and ends with the `org.add_member` query |
| JoinerMetrics.MemberLine | bin/fetch_github_joiner_metrics.py:61 | a member's line starts with who joined, names who added them and ends with `.` and a newline; it is a single line when the logins hold no newline |
| JoinerMetrics.TallyNewMembers | bin/fetch_github_joiner_metrics.py:59-66 | the loop builds each group's text from exactly its members, in order, and counts the Operations Engineering group |
| JoinerMetrics.ReportNewJoiners | bin/fetch_github_joiner_metrics.py:43-71 | a message is sent iff there are new members; it is the summary of all joiners with the rounded Operations Engineering share, the 7-day window and the organisation's audit-log link |
| VersionPinning.StepUses | bin/check_version_pinning.py:27 | a step's `uses` value when present, the empty string when the key is missing |
| VersionPinning.IsFlagged | bin/check_version_pinning.py:28-30 | only a value containing `@v` is flagged, and a value starting with `actions/` or `ministryofjustice` never is |
| VersionPinning.Entry | bin/check_version_pinning.py:31 | the line `<file>: <uses>`, from which the file path and the `uses` value can be read back |
| VersionPinning.FlaggedEntriesExactly | bin/check_version_pinning.py:22-32 | a line is reported for a workflow iff it is `<file>: <uses>` for some step's `uses` that is flagged |
| VersionPinning.FlaggedEntriesBounded | bin/check_version_pinning.py:22-32 | at most one line per step |
| VersionPinning.MissingUsesNotFlagged | bin/check_version_pinning.py:27-30 | a step without `uses` reads as "" and is never flagged |
| VersionPinning.ThirdPartyTagFlagged | bin/check_version_pinning.py:28-30 | a third-party action pinned by `@v` tag is flagged |
| VersionPinning.OwnActionsNotFlagged | bin/check_version_pinning.py:28-30 | `actions/...` and `ministryofjustice/...` actions are never flagged, whatever their version |
| VersionPinning.OwnerTextAnywhereNotFlagged | bin/check_version_pinning.py:28-30 | a value containing `actions/` or `ministryofjustice` anywhere, such as a third-party `aws-actions/...` action, is never flagged |
| VersionPinning.StepStep | bin/check_version_pinning.py:26-31 | one inner iteration appends the step's line exactly when the step is flagged |
| VersionPinning.JobStep | bin/check_version_pinning.py:25-26 | one more job contributes its steps' `uses` after those of the jobs before; a job without steps contributes none |
| VersionPinning.CheckUsesFieldInWorkflow | bin/check_version_pinning.py:22-32 | the nested loops return the flagged lines of all jobs' steps in order, and nothing for an empty or missing document |
| VersionPinning.IsWorkflowFileName | bin/check_version_pinning.py:9 | a file name is kept iff its last four characters are `.yml` or its last five are `.yaml` |
| VersionPinning.PathJoin | bin/check_version_pinning.py:10 | the joined path ends with the file name |
| VersionPinning.JoinedPathsAreYaml | bin/check_version_pinning.py:9-10 | joining a root to YAML file names yields paths ending in `.yml` or `.yaml` |
| VersionPinning.WorkflowFilesAreYaml | bin/check_version_pinning.py:6-10 | every path produced ends in `.yml` or `.yaml` |
| VersionPinning.WorkflowFilesComplete | bin/check_version_pinning.py:6-10 | every YAML file of every directory walked is produced, joined to its root |
| VersionPinning.WalkStep | bin/check_version_pinning.py:7-10 | one more directory of the walk adds its YAML files after those found before |
| VersionPinning.FileStep | bin/check_version_pinning.py:8-10 | one more file adds its joined path exactly when it is a YAML file |
| VersionPinning.FindWorkflowFiles | bin/check_version_pinning.py:6-10 | the generator's output in walk order, and every path is a YAML file |
| VersionPinning.AllResultsStep | bin/check_version_pinning.py:38-42 | one more file extends the results with its flagged lines exactly when its parse is truthy |
| VersionPinning.AllResultsSound | bin/check_version_pinning.py:38-42 | every reported line comes from a flagged step of some parsed workflow file |
| VersionPinning.AllResultsComplete | bin/check_version_pinning.py:38-42 | every flagged step of every parsed workflow file is reported |
| VersionPinning.AllResultsExactly | bin/check_version_pinning.py:38-42 | a line is reported iff it is a flagged step's line of some file that parsed to a non-empty document |
| VersionPinning.CheckVersionPinning | bin/check_version_pinning.py:35-49 | the results are all files' flagged lines in order; the output is the header and the lines, or the single "none found" line |
| InactiveUsers.NormaliseChannel | bin/report_on_inactive_users.py:84-87 | a missing channel stays missing; otherwise only leading `#`s are removed and the result does not start with `#` |
| InactiveUsers.NormaliseChannelIsLStrip | bin/report_on_inactive_users.py:86-87 | the `startswith` guard changes nothing: the channel is `lstrip('#')` of the name |
| InactiveUsers.NormaliseChannelUnprefixedAndIdempotent | bin/report_on_inactive_users.py:86-87 | a name without `#` is kept, and normalising twice is normalising once |
| InactiveUsers.NormaliseChannelStripsEveryHash | bin/report_on_inactive_users.py:87 | every leading `#` is removed, not just one: "##ops" becomes "ops" |
| InactiveUsers.NormaliseChannelHashOnly | bin/report_on_inactive_users.py:87 | a channel of just "#" becomes the empty name |
| InactiveUsers.LoadTeamConfig | bin/report_on_inactive_users.py:83-96 | loading fails iff `github_team` or `remove_from_team` is missing, with `KeyError` naming the first missing one; otherwise the fields are copied, absent ignore lists become the `list[str]` alias, and the channel is normalised |
| InactiveUsers.UserLineReadsBack | bin/report_on_inactive_users.py:55 | a user's line is `- ` followed by the login, which can be read back from it |
| InactiveUsers.UserLines | bin/report_on_inactive_users.py:54-57 | one `- <login>` line per user, in order |
| InactiveUsers.MessageToUsers | bin/report_on_inactive_users.py:53-80 | the message built step by step is the summary text, and it is empty iff there are no users |
| InactiveUsers.MessageEmptyIff | bin/report_on_inactive_users.py:53-80 | the summary is empty iff no users are given |
| InactiveUsers.MessageTextShape | bin/report_on_inactive_users.py:59-78 | for some users the text is the opening, then one section (header, the users' lines, the note), then the closing |
| InactiveUsers.MessageFrame | bin/report_on_inactive_users.py:61-78 | the summary opens with the greeting and the months analysed, and closes with the invitation to reach out, "Best," and the bot's signature |
| InactiveUsers.SummaryTextsAreOneLine | bin/report_on_inactive_users.py:61-78 | every fixed piece of the summary is a single line when the team name is |
| InactiveUsers.MessageLines | bin/report_on_inactive_users.py:53-80 | split at newlines, the summary gives back exactly its lines: intro, header, one line per user, note, outro |
| InactiveUsers.SummaryLinesLayout | bin/report_on_inactive_users.py:61-78 | where the greeting, blank lines, header, user lines, note and signature sit among the lines |
| InactiveUsers.MessageSections | bin/report_on_inactive_users.py:65-74 | the summary has the "Users Removed" header iff the users were removed and the "Seen but Not Removed" header otherwise, and the note naming the team (the user lines themselves are placed by `MessageLines` and `SummaryLinesLayout`) |
| InactiveUsers.HeadersAreNoOtherLine | bin/report_on_inactive_users.py:65-74 | no line but the header line is a section header |
| InactiveUsers.Services.constructor | bin/report_on_inactive_users.py:99 | the services answer inactive-user queries from a fixed oracle and have received no calls |
| InactiveUsers.Services.GetInactiveUsers | bin/report_on_inactive_users.py:104-105 | returns the oracle's answer for the team, its ignore lists and the months; the call is recorded |
| InactiveUsers.Services.RemoveListOfUsersFromTeam | bin/report_on_inactive_users.py:107-109 | the removal call is recorded |
| InactiveUsers.Services.SendMessageToPlaintextChannelName | bin/report_on_inactive_users.py:111-113 | the message call is recorded |
| InactiveUsers.ReportRunAppend | bin/report_on_inactive_users.py:99-113 | a run over two lists of teams is the run over the first, followed by the second only if the first raised nothing |
| InactiveUsers.ReportStepOk | bin/report_on_inactive_users.py:100-113 | a team whose settings load adds its query, removal and message calls after those of the teams before |
| InactiveUsers.ReportStepErr | bin/report_on_inactive_users.py:100-102 | a team whose settings do not load ends the whole run with its error: the calls are those of the teams before, and no later team is processed |
| InactiveUsers.TeamCallsOrder | bin/report_on_inactive_users.py:104-113 | per team: the query first; a removal iff the team removes users; a message last, iff someone is inactive and a channel is set, and it is the summary for the configuration key |
| InactiveUsers.SentMessagesWellFormed | bin/report_on_inactive_users.py:99-113 | every message sent is non-empty and goes to a non-empty channel name not starting with `#` |
| InactiveUsers.ReportRunAllLoad | bin/report_on_inactive_users.py:99-113 | when every team's settings load, the run raises nothing and makes at least one call per team |
| InactiveUsers.ReportRunStopsAtFirstError | bin/report_on_inactive_users.py:100-102 | the first team whose settings do not load raises its error, and only the teams before it have been processed |
| InactiveUsers.HashOnlyChannelNeverSent | bin/report_on_inactive_users.py:84-113 | a team whose channel is configured as "#" loads with an empty channel and is never sent a message |
| InactiveUsers.CreateReport | bin/report_on_inactive_users.py:99-113 | the loop makes exactly the calls of the specification run, in order, and raises its error, if any |

## Left out

- Reading environment variables and arguments (`get_environment_variables`, `setup_environment`), the TOML configuration file (`get_config`) and the `main` entry points. These are I/O only. The parsed configuration is an input.
- The broken two-argument call to `get_audit_logs` in the dormant-users entry point, and that function itself. They are part of the entry wiring, not of `identify_dormant_users`.
- YAML parsing (`parse_yaml_file`), including its error path that prints and returns `None`. It is a parameter `parse: string -> Option<Workflow>`: `None` stands for a file that does not parse.
- A YAML document that is not a mapping, or a `jobs`/`steps` value of the wrong type. The workflow is a typed tree.
- The `os.walk` traversal. It is an input list of directories, each with its file names, in walk order.
- `print`. The printed lines of `check_version_pinning` are returned as a sequence.
- The GitHub, Slack and Auth0 service implementations and `org.get_repos`. Their code is not part of this model. The services are objects whose answers come from fixed functions. The GitHub and Slack services of one script share one object, so the relative order of the calls they record is kept.
- Service failures. No modelled service call raises. In the scripts, an exception from any service call ends the run: `create_report` has no `try`.
- `ActionsQuota.AlertOnLowQuota`: its trace leaves out `get_all_organisations_in_enterprise` and the per-organisation `get_gha_minutes_used_for_organisation` calls, which the script makes before the reset. The organisations and their minutes are fixed fields of the service object, and the trace holds only the threshold and Slack calls.
- `JoinerMetrics.ReportNewJoiners`: has no service object. The audit-log query `check_for_audit_log_new_members` is its input list. The Slack send to the fixed channel is the returned message, with `None` for no send.
- How the stored quota threshold is reset. The reset value is a field of the service object, and the first day of the month is a parameter.
- `_calculate_date`, which reads the wall clock. The window of 7 days is kept as a constant.
- Logging, except the error `MojGithub.get_unarchived_repos` logs, which is a recorded list. The logging configuration is also left out.
- The client and organisation handles of `MojGithub.__init__`. `get_repos` is the fixed function `getRepos`.
- Python's dynamic typing: configuration values of the wrong type. The model types every field.
- `ActionsQuota.QuotaServices.SendLowQuotaWarning`: records the percentage and channel, not the text of `low_threshold_triggered_message`, because that text is floating-point rounding (`round(100 - p, 1)`) presentation.
- `ActionsQuota.PercentageUsed`: uses exact real division, not floating point.
- `JoinerMetrics.ReportNewJoiners`: the rounding of the percentage is a parameter `roundPercentage`, because Python's `round` of a float (banker's rounding of a binary float) is not modelled.
- `VersionPinning.ThirdPartyTagFlagged`: states the flag only for action names and versions without the letters `a` and `m`, because that is what keeps them from containing `actions/` or `ministryofjustice`. `VersionPinning.FlaggedEntriesExactly` covers every input.
- `InactiveUsers.ReportRunAllLoad`: states at least one call per team, not the exact calls. `InactiveUsers.CreateReport` and `InactiveUsers.ReportStepOk` give the exact calls.
- `MojGithubLib.MojGithub.GetUnarchivedRepos`: returns `None` for every unknown type, as the code does, where Python falls off the end of the function.
- The other files of the repository (the operations-engineering report service with its HTTP and encryption calls, and the tests of the `moj_archive`, `moj_slack` and `close_move_users_to_teams_expired_issues_refactor` modules). They are not part of this core.
