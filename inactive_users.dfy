/** The inactive-team-member audit of bin/report_on_inactive_users.py: for every self-managed team
    of the configuration, ask GitHub for the members inactive over the last months, remove them when
    the team asks for it, and tell the team's Slack channel who was removed or only seen. */
module InactiveUsers {
  import opened Wrappers
  import opened Text
  import opened Seqs

  /** A GitHub user, of which the report reads the login only. */
  datatype NamedUser = NamedUser(login: string)

  /** The value of `ignore_users` / `ignore_repositories`: the configured names, or, when the key is
      absent, the type alias object `list[str]` that `dict.get` returns as its default. */
  datatype IgnoreList = Listed(names: seq<string>) | ListStrAlias

  /** One `[team.<key>]` table of the configuration, one Option per key the loader reads. */
  datatype TeamConfig = TeamConfig(
    githubTeam: Option<string>,
    removeFromTeam: Option<bool>,
    usersToIgnore: Option<seq<string>>,
    repositoriesToIgnore: Option<seq<string>>,
    slackChannel: Option<string>)

  /** `SelfManagedGitHubTeam`: the settings of one team after loading. */
  datatype SelfManagedGitHubTeam = SelfManagedGitHubTeam(
    githubTeam: string,
    removeUsers: bool,
    ignoreUsers: IgnoreList,
    ignoreRepositories: IgnoreList,
    slackChannel: Option<string>)

  /** The exception loading raises: `KeyError(key)` for a required key that is missing. */
  datatype ConfigError = KeyError(key: string)

  /** The channel handling of `_load_team_config`: a name starting with `#` loses every leading `#`. */
  function NormaliseChannel(channel: Option<string>): (r: Option<string>)
    ensures r.None? <==> channel.None?
    ensures channel.Some? ==> var c, n := channel.value, r.value;
      && (n == [] || n[0] != '#')
      && |n| <= |c| && c == c[..|c| - |n|] + n
      && forall i :: 0 <= i < |c| - |n| ==> c[i] == '#'
  {
    if channel.Some? && StartsWith(channel.value, "#") then Some(LStrip(channel.value, '#')) else channel
  }

  /** The `startswith('#')` guard changes nothing: the loader strips exactly the leading `#`s. */
  lemma NormaliseChannelIsLStrip(c: string)
    ensures NormaliseChannel(Some(c)) == Some(LStrip(c, '#'))
  {
    if !StartsWith(c, "#") {
      assert c == [] || c[0] != '#';
    }
  }

  /** A name without the prefix is kept as it is, and normalising twice is normalising once. */
  lemma NormaliseChannelUnprefixedAndIdempotent(channel: Option<string>)
    ensures channel.Some? && (channel.value == [] || channel.value[0] != '#') ==> NormaliseChannel(channel) == channel
    ensures NormaliseChannel(NormaliseChannel(channel)) == NormaliseChannel(channel)
  {
  }

  /** `lstrip` removes every `#`, not just one: "##ops" becomes "ops" and "#" becomes "". */
  lemma NormaliseChannelStripsEveryHash()
    ensures NormaliseChannel(Some("##ops")) == Some("ops")
  {
    var c := "##ops";
    var n := NormaliseChannel(Some(c)).value;
    var dropped := |c| - |n|;
    assert c[2] != '#';
    assert dropped <= 2;
    assert n[0] == c[dropped];
    assert c[0] == '#' && c[1] == '#';
    assert dropped == 2;
    assert n == c[2..] == "ops";
  }

  /** A channel of just "#" becomes the empty name. */
  lemma NormaliseChannelHashOnly()
    ensures NormaliseChannel(Some("#")) == Some("")
  {
    var n := NormaliseChannel(Some("#")).value;
    assert |n| <= 1;
  }

  /** `_load_team_config`: `github_team` and `remove_from_team` are required (looked up in that
      order), the two ignore lists default to the `list[str]` alias, and the channel is normalised. */
  function LoadTeamConfig(config: TeamConfig): (r: Result<SelfManagedGitHubTeam, ConfigError>)
    ensures r.Err? <==> config.githubTeam.None? || config.removeFromTeam.None?
    ensures config.githubTeam.None? ==> r == Err(KeyError("github_team"))
    ensures config.githubTeam.Some? && config.removeFromTeam.None? ==> r == Err(KeyError("remove_from_team"))
    ensures r.Ok? ==> var t := r.value;
      && t.githubTeam == config.githubTeam.value
      && t.removeUsers == config.removeFromTeam.value
      && (t.ignoreUsers == ListStrAlias <==> config.usersToIgnore.None?)
      && (config.usersToIgnore.Some? ==> t.ignoreUsers == Listed(config.usersToIgnore.value))
      && (t.ignoreRepositories == ListStrAlias <==> config.repositoriesToIgnore.None?)
      && (config.repositoriesToIgnore.Some? ==> t.ignoreRepositories == Listed(config.repositoriesToIgnore.value))
      && t.slackChannel == NormaliseChannel(config.slackChannel)
  {
    var slackChannelName := NormaliseChannel(config.slackChannel);
    if config.githubTeam.None? then Err(KeyError("github_team"))
    else if config.removeFromTeam.None? then Err(KeyError("remove_from_team"))
    else Ok(SelfManagedGitHubTeam(
      config.githubTeam.value,
      config.removeFromTeam.value,
      if config.usersToIgnore.Some? then Listed(config.usersToIgnore.value) else ListStrAlias,
      if config.repositoriesToIgnore.Some? then Listed(config.repositoriesToIgnore.value) else ListStrAlias,
      slackChannelName))
  }

  // The fixed lines of the summary message. The longer texts are written in short pieces, which
  // lets the verifier see their characters.
  const Greeting: string := "Hi team :wave:,"
  const RemovedHeader: string := ":outbox_tray: Users Removed:"
  const SeenHeader: string := ":eyes: Users Seen but Not Removed:"
  const Closing: string := ClosingQuestion + ClosingOffer
  const ClosingQuestion: string := "If you have any questions "
  const ClosingOffer: string := "or concerns, please feel free " + "to reach out."
  const SignOff: string := "Best,"
  const Signature: string := "The Operations Engineering Bot"

  const AnalysedPrefix: string := AnalysedOpening + AnalysedMiddle
  const AnalysedOpening: string := "As part of our ongoing " + "efforts to maintain the "
  const AnalysedMiddle: string := "integrity of our GitHub teams, " + "we have analysed user " + "activity for the last "
  const AnalysedSuffix: string := " months. Here's the summary:"

  function AnalysedLine(inactivityMonths: int): string {
    AnalysedPrefix + IntToString(inactivityMonths) + AnalysedSuffix
  }

  const RemovedNotePrefix: string := "*(These users have been " + "automatically removed from " + "the '"
  const RemovedNoteSuffix: string := "' team due to inactivity.)*"
  const SeenNotePrefix: string := "*(These users were identified " + "as inactive in the '"
  const SeenNoteSuffix: string := "' team but were not " + "automatically removed. " + "Please review and take "
    + "appropriate actions.)*"

  function RemovedNote(teamName: string): string {
    RemovedNotePrefix + teamName + RemovedNoteSuffix
  }

  function SeenNote(teamName: string): string {
    SeenNotePrefix + teamName + SeenNoteSuffix
  }

  /** The line naming one user. */
  function UserLine(user: NamedUser): string {
    "- " + user.login
  }

  /** A user's line is a dash and a space, then the login, which can be read back from the line. */
  lemma UserLineReadsBack(user: NamedUser)
    ensures StartsWith(UserLine(user), "- ")
    ensures UserLine(user)[2..] == user.login
  {
  }

  /** The user lines, one per user in list order. */
  function UserLines(users: seq<NamedUser>): (r: seq<string>)
    ensures |r| == |users|
    ensures forall k :: 0 <= k < |users| ==> r[k] == UserLine(users[k])
    decreases |users|
  {
    if users == [] then [] else [UserLine(users[0])] + UserLines(users[1..])
  }

  function Header(remove: bool): string {
    if remove then RemovedHeader else SeenHeader
  }

  function Note(remove: bool, teamName: string): string {
    if remove then RemovedNote(teamName) else SeenNote(teamName)
  }

  function IntroLines(inactivityMonths: int): seq<string> {
    [Greeting, "", AnalysedLine(inactivityMonths), ""]
  }

  function OutroLines(remove: bool, teamName: string): seq<string> {
    [Note(remove, teamName), "", Closing, "", SignOff, Signature]
  }

  /** The lines of the summary for a non-empty list of users: greeting, the one section that applies
      (its header, a line per user, the note naming the team), then the closing and the signature. */
  function SummaryLines(users: seq<NamedUser>, remove: bool, teamName: string, inactivityMonths: int): seq<string> {
    IntroLines(inactivityMonths) + [Header(remove)] + UserLines(users) + OutroLines(remove, teamName)
  }

  /** What `_message_to_users` returns (specification): nothing for no users, else the summary lines. */
  function MessageText(users: seq<NamedUser>, remove: bool, teamName: string, inactivityMonths: int): string {
    if users == [] then "" else Join("\n", SummaryLines(users, remove, teamName, inactivityMonths))
  }

  /** The three texts the message is built from with `+=`: the greeting with the months analysed, one
      section (its header, the names, the note), and the closing with the signature. */
  function IntroText(inactivityMonths: int): string {
    Greeting + "\n\n" + AnalysedLine(inactivityMonths) + "\n\n"
  }

  function SectionText(header: string, names: string, note: string): string {
    header + "\n" + names + "\n" + note + "\n\n"
  }

  const OutroText: string := Closing + "\n\n" + SignOff + "\n" + Signature

  /** Python truth of `removed_names` / `to_remove_names`: False is None here, and "" is false too. */
  predicate IsTruthyText(names: Option<string>) {
    names.Some? && names.value != ""
  }

  /** `_message_to_users`: the message is built section by section with `+=`. */
  method MessageToUsers(users: seq<NamedUser>, remove: bool, teamName: string, inactivityMonths: int)
    returns (message: string)
    ensures message == MessageText(users, remove, teamName, inactivityMonths)
    ensures message == "" <==> users == []
  {
    var names := Join("\n", UserLines(users));
    var removedNames: Option<string> := if remove && users != [] then Some(names) else None;
    var toRemoveNames: Option<string> := if !remove && users != [] then Some(names) else None;
    if users != [] {
      JoinNonEmpty("\n", UserLines(users));
    }

    message := "";
    if IsTruthyText(removedNames) || IsTruthyText(toRemoveNames) {
      message := IntroText(inactivityMonths);
      if IsTruthyText(removedNames) {
        message := message + SectionText(RemovedHeader, removedNames.value, RemovedNote(teamName));
      }
      if IsTruthyText(toRemoveNames) {
        message := message + SectionText(SeenHeader, toRemoveNames.value, SeenNote(teamName));
      }
      message := message + OutroText;
      MessageTextShape(users, remove, teamName, inactivityMonths);
    }
  }

  /** A join whose first part is not empty is not empty. */
  lemma JoinNonEmpty(sep: string, parts: seq<string>)
    requires parts != [] && parts[0] != ""
    ensures Join(sep, parts) != ""
  {
    if |parts| > 1 {
      assert |Join(sep, parts)| >= |parts[0]|;
    }
  }

  /** A line followed by an empty line is followed by two line breaks. */
  lemma JoinBlankLine(line: string, lines: seq<string>)
    requires lines != []
    ensures Join("\n", [line, ""] + lines) == line + "\n\n" + Join("\n", lines)
  {
    assert [line, ""] + lines == [line] + ([""] + lines);
    JoinCons("\n", "", lines);
    JoinCons("\n", line, [""] + lines);
    assert "" + "\n" + Join("\n", lines) == "\n" + Join("\n", lines);
    AppendAssoc(line + "\n", "\n", Join("\n", lines));
  }

  /** Joining the greeting lines and a header. */
  lemma IntroJoin(greeting: string, analysed: string, header: string)
    ensures Join("\n", [greeting, "", analysed, ""] + [header]) == (greeting + "\n\n" + analysed + "\n\n") + header
  {
    assert [greeting, "", analysed, ""] + [header] == [greeting, ""] + ([analysed, ""] + [header]);
    JoinBlankLine(analysed, [header]);
    JoinBlankLine(greeting, [analysed, ""] + [header]);
  }

  /** Joining a note and the closing lines. */
  lemma OutroJoin(note: string, closing: string, signOff: string, signature: string)
    ensures Join("\n", [note, "", closing, "", signOff, signature])
      == note + "\n\n" + (closing + "\n\n" + signOff + "\n" + signature)
  {
    assert [note, "", closing, "", signOff, signature] == [note, ""] + ([closing, ""] + [signOff, signature]);
    JoinCons("\n", signOff, [signature]);
    JoinBlankLine(closing, [signOff, signature]);
    JoinBlankLine(note, [closing, ""] + [signOff, signature]);
  }

  /** Joining lines laid out like the summary gives the three parts the `+=` steps append. */
  lemma SummaryJoin(intro: string, header: string, names: seq<string>, note: string, outro: string,
                    introLines: seq<string>, outroLines: seq<string>)
    requires introLines != [] && names != [] && outroLines != []
    requires Join("\n", introLines + [header]) == intro + header
    requires Join("\n", outroLines) == note + "\n\n" + outro
    ensures Join("\n", introLines + [header] + names + outroLines)
      == intro + (header + "\n" + Join("\n", names) + "\n" + note + "\n\n") + outro
  {
    JoinAppend("\n", introLines + [header], names);
    JoinAppend("\n", introLines + [header] + names, outroLines);
  }

  /** The summary is the three texts the `+=` steps append. */
  lemma MessageTextShape(users: seq<NamedUser>, remove: bool, teamName: string, inactivityMonths: int)
    requires users != []
    ensures MessageText(users, remove, teamName, inactivityMonths)
      == IntroText(inactivityMonths) + SectionText(Header(remove), Join("\n", UserLines(users)), Note(remove, teamName)) + OutroText
  {
    IntroJoin(Greeting, AnalysedLine(inactivityMonths), Header(remove));
    OutroJoin(Note(remove, teamName), Closing, SignOff, Signature);
    SummaryJoin(IntroText(inactivityMonths), Header(remove), UserLines(users), Note(remove, teamName), OutroText,
                IntroLines(inactivityMonths), OutroLines(remove, teamName));
  }

  /** A non-empty message opens with the greeting and the months analysed, and closes with the
      invitation to reach out, "Best," and the bot's signature. */
  lemma MessageFrame(users: seq<NamedUser>, remove: bool, teamName: string, inactivityMonths: int)
    requires users != []
    ensures var msg := MessageText(users, remove, teamName, inactivityMonths);
      && StartsWith(msg, IntroText(inactivityMonths))
      && EndsWith(msg, OutroText)
  {
    MessageTextShape(users, remove, teamName, inactivityMonths);
    FramedBy(IntroText(inactivityMonths), SectionText(Header(remove), Join("\n", UserLines(users)), Note(remove, teamName)), OutroText);
  }

  /** `_message_to_users` returns the empty string exactly when there are no users. */
  lemma MessageEmptyIff(users: seq<NamedUser>, remove: bool, teamName: string, inactivityMonths: int)
    ensures MessageText(users, remove, teamName, inactivityMonths) == "" <==> users == []
  {
    if users != [] {
      MessageTextShape(users, remove, teamName, inactivityMonths);
    }
  }

  // None of the lines of the summary breaks across lines (one small proof per text).
  lemma GreetingIsOneLine() ensures '\n' !in Greeting {}
  lemma RemovedHeaderIsOneLine() ensures '\n' !in RemovedHeader {}
  lemma SeenHeaderIsOneLine() ensures '\n' !in SeenHeader {}
  lemma ClosingQuestionIsOneLine() ensures '\n' !in ClosingQuestion {}
  lemma ClosingOfferIsOneLine() ensures '\n' !in ClosingOffer {}
  lemma SignOffIsOneLine() ensures '\n' !in SignOff {}
  lemma SignatureIsOneLine() ensures '\n' !in Signature {}
  lemma AnalysedOpeningIsOneLine() ensures '\n' !in AnalysedOpening {}
  lemma AnalysedMiddleIsOneLine() ensures '\n' !in AnalysedMiddle {}
  lemma AnalysedSuffixIsOneLine() ensures '\n' !in AnalysedSuffix {}
  lemma RemovedNotePrefixIsOneLine() ensures '\n' !in RemovedNotePrefix {}
  lemma RemovedNoteSuffixIsOneLine() ensures '\n' !in RemovedNoteSuffix {}
  lemma SeenNotePrefixIsOneLine() ensures '\n' !in SeenNotePrefix {}
  lemma SeenNoteSuffixIsOneLine() ensures '\n' !in SeenNoteSuffix {}

  /** Every fixed line, and every line naming the months or the team, is a single line. */
  lemma SummaryTextsAreOneLine(teamName: string, inactivityMonths: int)
    requires '\n' !in teamName
    ensures forall p :: (p in IntroLines(inactivityMonths) + [Header(true), Header(false)]
                         + OutroLines(true, teamName) + OutroLines(false, teamName)) ==> '\n' !in p
  {
    GreetingIsOneLine();
    RemovedHeaderIsOneLine();
    SeenHeaderIsOneLine();
    ClosingQuestionIsOneLine();
    ClosingOfferIsOneLine();
    SignOffIsOneLine();
    SignatureIsOneLine();
    AnalysedOpeningIsOneLine();
    AnalysedMiddleIsOneLine();
    AnalysedSuffixIsOneLine();
    RemovedNotePrefixIsOneLine();
    RemovedNoteSuffixIsOneLine();
    SeenNotePrefixIsOneLine();
    SeenNoteSuffixIsOneLine();
  }

  /** Read line by line, the message is exactly the summary lines (provided no login and not the
      team name holds a line break). */
  lemma MessageLines(users: seq<NamedUser>, remove: bool, teamName: string, inactivityMonths: int)
    requires users != []
    requires forall u :: u in users ==> '\n' !in u.login
    requires '\n' !in teamName
    ensures Split(MessageText(users, remove, teamName, inactivityMonths), '\n') == SummaryLines(users, remove, teamName, inactivityMonths)
  {
    var lines := SummaryLines(users, remove, teamName, inactivityMonths);
    SummaryTextsAreOneLine(teamName, inactivityMonths);
    forall p | p in lines ensures '\n' !in p {
      if p in UserLines(users) {
        var k :| 0 <= k < |users| && UserLines(users)[k] == p;
        assert users[k] in users;
      }
    }
    SplitJoin(lines, '\n');
  }

  /** Where the parts of the summary sit: four greeting lines, the section header, a `- <login>` line
      per user in list order, then the note naming the team and the closing lines. */
  lemma SummaryLinesLayout(users: seq<NamedUser>, remove: bool, teamName: string, inactivityMonths: int)
    ensures var lines := SummaryLines(users, remove, teamName, inactivityMonths);
      && |lines| == |users| + 11
      && lines[..4] == IntroLines(inactivityMonths)
      && lines[4] == Header(remove)
      && lines[5..5 + |users|] == UserLines(users)
      && (forall k :: 0 <= k < |users| ==> lines[5 + k] == "- " + users[k].login)
      && lines[5 + |users|] == Note(remove, teamName)
      && lines[5 + |users|..] == OutroLines(remove, teamName)
      && lines[|lines| - 2..] == [SignOff, Signature]
  {
    var head, names, outro := IntroLines(inactivityMonths) + [Header(remove)], UserLines(users), OutroLines(remove, teamName);
    var lines := head + names + outro;
    assert lines[..4] == IntroLines(inactivityMonths);
    assert lines[5..5 + |users|] == names;
    assert lines[5 + |users|..] == outro;
    forall k | 0 <= k < |users| ensures lines[5 + k] == "- " + users[k].login {
      assert lines[5 + k] == names[k];
    }
  }

  /** With users, exactly one of the two sections appears: "Users Removed" when they were removed,
      "Users Seen but Not Removed" when they were not, each with the note naming the team. */
  lemma MessageSections(users: seq<NamedUser>, remove: bool, teamName: string, inactivityMonths: int)
    requires users != []
    requires forall u :: u in users ==> '\n' !in u.login
    requires '\n' !in teamName
    ensures var lines := Split(MessageText(users, remove, teamName, inactivityMonths), '\n');
      && (RemovedHeader in lines <==> remove)
      && (SeenHeader in lines <==> !remove)
      && Note(remove, teamName) in lines
  {
    MessageLines(users, remove, teamName, inactivityMonths);
    var lines := SummaryLines(users, remove, teamName, inactivityMonths);
    assert lines[4] == Header(remove);
    assert lines[5 + |users|] == Note(remove, teamName);
    HeadersAreNoOtherLine(users, remove, teamName, inactivityMonths);
  }

  /** Neither section header can be any other line of the summary. */
  lemma HeadersAreNoOtherLine(users: seq<NamedUser>, remove: bool, teamName: string, inactivityMonths: int)
    ensures forall k :: 0 <= k < |SummaryLines(users, remove, teamName, inactivityMonths)| && k != 4 ==>
      SummaryLines(users, remove, teamName, inactivityMonths)[k] != RemovedHeader
      && SummaryLines(users, remove, teamName, inactivityMonths)[k] != SeenHeader
  {
    var lines := SummaryLines(users, remove, teamName, inactivityMonths);
    assert RemovedHeader[0] == ':' && SeenHeader[0] == ':';
    forall k | 0 <= k < |lines| && k != 4
      ensures lines[k] != RemovedHeader && lines[k] != SeenHeader
    {
      if 5 <= k < 5 + |users| {
        assert lines[k] == UserLine(users[k - 5]);
        assert lines[k][0] == '-';
      } else if k == 5 + |users| {
        assert lines[k][0] == '*';
      } else if k == 0 {
        assert lines[k][0] == 'H';
      } else if k == 2 {
        assert lines[k][0] == 'A';
      } else if k == |lines| - 4 {
        assert lines[k][0] == 'I';
      } else if k == |lines| - 2 {
        assert lines[k][0] == 'B';
      } else if k == |lines| - 1 {
        assert lines[k][0] == 'T';
      } else {
        assert lines[k] == "";
      }
    }
  }

  /** The calls the report makes on the GitHub and Slack services. */
  datatype Call =
    | GetInactiveUsersCall(team: string, ignoreUsers: IgnoreList, ignoreRepositories: IgnoreList, inactivityMonths: int)
    | RemoveUsersCall(team: string, users: seq<NamedUser>)
    | SendMessageCall(message: string, channel: string)

  /** The GitHub and Slack services together, recording every call they receive. */
  class Services {
    /** What `get_inactive_users` answers for a team, its ignore lists and the number of months. */
    const inactiveUsersOf: (string, IgnoreList, IgnoreList, int) -> seq<NamedUser>
    /** The calls made so far, in order. */
    var trace: seq<Call>

    constructor (inactiveUsersOf: (string, IgnoreList, IgnoreList, int) -> seq<NamedUser>)
      ensures this.inactiveUsersOf == inactiveUsersOf && trace == []
    {
      this.inactiveUsersOf := inactiveUsersOf;
      trace := [];
    }

    /** `github_service.get_inactive_users` */
    method GetInactiveUsers(team: string, ignoreUsers: IgnoreList, ignoreRepositories: IgnoreList, inactivityMonths: int)
      returns (users: seq<NamedUser>)
      modifies this
      ensures users == inactiveUsersOf(team, ignoreUsers, ignoreRepositories, inactivityMonths)
      ensures trace == old(trace) + [GetInactiveUsersCall(team, ignoreUsers, ignoreRepositories, inactivityMonths)]
    {
      users := inactiveUsersOf(team, ignoreUsers, ignoreRepositories, inactivityMonths);
      trace := trace + [GetInactiveUsersCall(team, ignoreUsers, ignoreRepositories, inactivityMonths)];
    }

    /** `github_service.remove_list_of_users_from_team` */
    method RemoveListOfUsersFromTeam(team: string, users: seq<NamedUser>)
      modifies this
      ensures trace == old(trace) + [RemoveUsersCall(team, users)]
    {
      trace := trace + [RemoveUsersCall(team, users)];
    }

    /** `slack_service.send_message_to_plaintext_channel_name` */
    method SendMessageToPlaintextChannelName(message: string, channel: string)
      modifies this
      ensures trace == old(trace) + [SendMessageCall(message, channel)]
    {
      trace := trace + [SendMessageCall(message, channel)];
    }
  }

  /** Python truth of the loaded channel: present and not empty. */
  predicate HasChannel(channel: Option<string>) {
    channel.Some? && channel.value != ""
  }

  /** The calls made for one team whose settings loaded, under its configuration key `key`
      (specification of one iteration of `create_report`). */
  function TeamCalls(key: string, team: SelfManagedGitHubTeam, inactive: seq<NamedUser>, inactivityMonths: int): seq<Call> {
    [GetInactiveUsersCall(team.githubTeam, team.ignoreUsers, team.ignoreRepositories, inactivityMonths)]
      + (if team.removeUsers then [RemoveUsersCall(team.githubTeam, inactive)] else [])
      + (if |inactive| > 0 && HasChannel(team.slackChannel)
         then [SendMessageCall(MessageText(inactive, team.removeUsers, key, inactivityMonths), team.slackChannel.value)]
         else [])
  }

  /** The outcome of a report run: the calls made, and the error that ended it, if any. */
  datatype Run = Run(calls: seq<Call>, raised: Option<ConfigError>)

  /** `create_report` (specification): the teams in order, stopping at the first one whose settings
      do not load. */
  function ReportRun(teams: seq<(string, TeamConfig)>, inactivityMonths: int,
                     inactiveUsersOf: (string, IgnoreList, IgnoreList, int) -> seq<NamedUser>): Run
    decreases |teams|
  {
    if teams == [] then Run([], None)
    else
      match LoadTeamConfig(teams[0].1)
      case Err(e) => Run([], Some(e))
      case Ok(t) =>
        var inactive := inactiveUsersOf(t.githubTeam, t.ignoreUsers, t.ignoreRepositories, inactivityMonths);
        var rest := ReportRun(teams[1..], inactivityMonths, inactiveUsersOf);
        Run(TeamCalls(teams[0].0, t, inactive, inactivityMonths) + rest.calls, rest.raised)
  }

  /** Running over two lists of teams runs over the first, and over the second only if the first
      raised nothing. */
  lemma {:induction false} ReportRunAppend(a: seq<(string, TeamConfig)>, b: seq<(string, TeamConfig)>, inactivityMonths: int,
                                           inactiveUsersOf: (string, IgnoreList, IgnoreList, int) -> seq<NamedUser>)
    ensures var ra, rb := ReportRun(a, inactivityMonths, inactiveUsersOf), ReportRun(b, inactivityMonths, inactiveUsersOf);
      ReportRun(a + b, inactivityMonths, inactiveUsersOf)
        == if ra.raised.Some? then ra else Run(ra.calls + rb.calls, rb.raised)
    decreases |a|
  {
    if a == [] {
      assert a + b == b;
    } else {
      assert (a + b)[0] == a[0];
      assert (a + b)[1..] == a[1..] + b;
      ReportRunAppend(a[1..], b, inactivityMonths, inactiveUsersOf);
      match LoadTeamConfig(a[0].1)
      case Err(e) =>
      case Ok(t) =>
        var inactive := inactiveUsersOf(t.githubTeam, t.ignoreUsers, t.ignoreRepositories, inactivityMonths);
        var head := TeamCalls(a[0].0, t, inactive, inactivityMonths);
        var rest := ReportRun(a[1..], inactivityMonths, inactiveUsersOf);
        var rb := ReportRun(b, inactivityMonths, inactiveUsersOf);
        assert head + (rest.calls + rb.calls) == (head + rest.calls) + rb.calls;
    }
  }

  /** One more team whose settings load extends a run that has raised nothing by that team's calls. */
  lemma ReportStepOk(teams: seq<(string, TeamConfig)>, i: nat, inactivityMonths: int,
                     inactiveUsersOf: (string, IgnoreList, IgnoreList, int) -> seq<NamedUser>)
    requires i < |teams| && LoadTeamConfig(teams[i].1).Ok?
    requires ReportRun(teams[..i], inactivityMonths, inactiveUsersOf).raised.None?
    ensures var t := LoadTeamConfig(teams[i].1).value;
      ReportRun(teams[..i + 1], inactivityMonths, inactiveUsersOf)
        == Run(ReportRun(teams[..i], inactivityMonths, inactiveUsersOf).calls + TeamCalls(
             teams[i].0, t, inactiveUsersOf(t.githubTeam, t.ignoreUsers, t.ignoreRepositories, inactivityMonths), inactivityMonths),
           None)
  {
    ReportRunAppend(teams[..i], [teams[i]], inactivityMonths, inactiveUsersOf);
    assert teams[..i] + [teams[i]] == teams[..i + 1];
    assert [teams[i]][1..] == [];
  }

  /** A team whose settings do not load ends a run that had raised nothing with its error. */
  lemma ReportStepErr(teams: seq<(string, TeamConfig)>, i: nat, inactivityMonths: int,
                      inactiveUsersOf: (string, IgnoreList, IgnoreList, int) -> seq<NamedUser>)
    requires i < |teams| && LoadTeamConfig(teams[i].1).Err?
    requires ReportRun(teams[..i], inactivityMonths, inactiveUsersOf).raised.None?
    ensures ReportRun(teams, inactivityMonths, inactiveUsersOf)
      == Run(ReportRun(teams[..i], inactivityMonths, inactiveUsersOf).calls, Some(LoadTeamConfig(teams[i].1).error))
  {
    ReportRunAppend(teams[..i], teams[i..], inactivityMonths, inactiveUsersOf);
    assert teams[..i] + teams[i..] == teams;
    assert teams[i..][0] == teams[i];
  }

  /** For one team: the query comes first; a removal follows exactly when the team removes users, even
      when nobody is inactive; a message is sent last, exactly when someone is inactive and a channel
      is set, and it is the summary for the configuration key (not the GitHub team name). */
  lemma TeamCallsOrder(key: string, team: SelfManagedGitHubTeam, inactive: seq<NamedUser>, inactivityMonths: int)
    ensures var calls := TeamCalls(key, team, inactive, inactivityMonths);
      && calls[0] == GetInactiveUsersCall(team.githubTeam, team.ignoreUsers, team.ignoreRepositories, inactivityMonths)
      && ((exists j :: 0 <= j < |calls| && calls[j].RemoveUsersCall?) <==> team.removeUsers)
      && (team.removeUsers ==> calls[1] == RemoveUsersCall(team.githubTeam, inactive))
      && ((exists j :: 0 <= j < |calls| && calls[j].SendMessageCall?) <==> |inactive| > 0 && HasChannel(team.slackChannel))
      && (forall j :: 0 <= j < |calls| && calls[j].SendMessageCall? ==>
            j == |calls| - 1 && j > 0
            && calls[j] == SendMessageCall(MessageText(inactive, team.removeUsers, key, inactivityMonths), team.slackChannel.value))
  {
    var calls := TeamCalls(key, team, inactive, inactivityMonths);
    if team.removeUsers {
      assert calls[1].RemoveUsersCall?;
    }
    if |inactive| > 0 && HasChannel(team.slackChannel) {
      assert calls[|calls| - 1].SendMessageCall?;
    }
  }

  /** Whatever the configuration, every message sent is non-empty and goes to a non-empty channel
      name that does not start with `#`. */
  lemma {:induction false} SentMessagesWellFormed(teams: seq<(string, TeamConfig)>, inactivityMonths: int,
                                                 inactiveUsersOf: (string, IgnoreList, IgnoreList, int) -> seq<NamedUser>)
    ensures forall c :: c in ReportRun(teams, inactivityMonths, inactiveUsersOf).calls && c.SendMessageCall? ==>
      c.message != "" && c.channel != "" && c.channel[0] != '#'
    decreases |teams|
  {
    if teams != [] {
      SentMessagesWellFormed(teams[1..], inactivityMonths, inactiveUsersOf);
      var loaded := LoadTeamConfig(teams[0].1);
      if loaded.Ok? {
        var t := loaded.value;
        var inactive := inactiveUsersOf(t.githubTeam, t.ignoreUsers, t.ignoreRepositories, inactivityMonths);
        MessageEmptyIff(inactive, t.removeUsers, teams[0].0, inactivityMonths);
        TeamCallsOrder(teams[0].0, t, inactive, inactivityMonths);
      }
    }
  }

  /** A run over teams whose settings all load raises nothing and makes at least one call per team
      (the query); `ReportStepOk` gives each team's exact calls. */
  lemma {:induction false} ReportRunAllLoad(teams: seq<(string, TeamConfig)>, inactivityMonths: int,
                                            inactiveUsersOf: (string, IgnoreList, IgnoreList, int) -> seq<NamedUser>)
    requires forall k :: 0 <= k < |teams| ==> LoadTeamConfig(teams[k].1).Ok?
    ensures ReportRun(teams, inactivityMonths, inactiveUsersOf).raised.None?
    ensures |ReportRun(teams, inactivityMonths, inactiveUsersOf).calls| >= |teams|
    decreases |teams|
  {
    if teams != [] {
      assert LoadTeamConfig(teams[0].1).Ok?;
      ReportRunAllLoad(teams[1..], inactivityMonths, inactiveUsersOf);
    }
  }

  /** The run stops at the first team whose settings do not load: it raises that team's error, and
      the calls are those of the teams before it; no later team is looked at. */
  lemma ReportRunStopsAtFirstError(teams: seq<(string, TeamConfig)>, k: nat, inactivityMonths: int,
                                   inactiveUsersOf: (string, IgnoreList, IgnoreList, int) -> seq<NamedUser>)
    requires k < |teams| && LoadTeamConfig(teams[k].1).Err?
    requires forall j :: 0 <= j < k ==> LoadTeamConfig(teams[j].1).Ok?
    ensures ReportRun(teams, inactivityMonths, inactiveUsersOf)
      == Run(ReportRun(teams[..k], inactivityMonths, inactiveUsersOf).calls, Some(LoadTeamConfig(teams[k].1).error))
  {
    ReportRunAllLoad(teams[..k], inactivityMonths, inactiveUsersOf);
    ReportStepErr(teams, k, inactivityMonths, inactiveUsersOf);
  }

  /** A channel configured as just "#" loads as "", so that team is never sent a message. */
  lemma HashOnlyChannelNeverSent(key: string, config: TeamConfig, inactive: seq<NamedUser>, inactivityMonths: int)
    requires config.githubTeam.Some? && config.removeFromTeam.Some? && config.slackChannel == Some("#")
    ensures LoadTeamConfig(config).Ok?
    ensures LoadTeamConfig(config).value.slackChannel == Some("")
    ensures forall c :: c in TeamCalls(key, LoadTeamConfig(config).value, inactive, inactivityMonths) ==> !c.SendMessageCall?
  {
    NormaliseChannelHashOnly();
  }

  /** `create_report`: for each team in order, load its settings (a missing key raises and ends the
      run), fetch the inactive users, remove them if the team says so, and send the summary when there
      were any and a channel is set. */
  method CreateReport(services: Services, inactivity: int, teams: seq<(string, TeamConfig)>)
    returns (raised: Option<ConfigError>)
    modifies services
    ensures var run := ReportRun(teams, inactivity, services.inactiveUsersOf);
      services.trace == old(services.trace) + run.calls && raised == run.raised
  {
    raised := None;
    for i := 0 to |teams|
      invariant ReportRun(teams[..i], inactivity, services.inactiveUsersOf).raised.None?
      invariant services.trace == old(services.trace) + ReportRun(teams[..i], inactivity, services.inactiveUsersOf).calls
    {
      var (team, settings) := teams[i];
      ghost var done := ReportRun(teams[..i], inactivity, services.inactiveUsersOf).calls;
      var loaded := LoadTeamConfig(settings);
      if loaded.Err? {
        ReportStepErr(teams, i, inactivity, services.inactiveUsersOf);
        raised := Some(loaded.error);
        return;
      }
      var teamData := loaded.value;
      var inactiveUsers := services.GetInactiveUsers(
        teamData.githubTeam, teamData.ignoreUsers, teamData.ignoreRepositories, inactivity);
      ghost var calls: seq<Call> := [GetInactiveUsersCall(teamData.githubTeam, teamData.ignoreUsers, teamData.ignoreRepositories, inactivity)];
      if teamData.removeUsers {
        services.RemoveListOfUsersFromTeam(teamData.githubTeam, inactiveUsers);
        AppendAssoc(old(services.trace) + done, calls, [RemoveUsersCall(teamData.githubTeam, inactiveUsers)]);
        calls := calls + [RemoveUsersCall(teamData.githubTeam, inactiveUsers)];
      }
      assert services.trace == old(services.trace) + done + calls;
      if |inactiveUsers| > 0 && HasChannel(teamData.slackChannel) {
        var message := MessageToUsers(inactiveUsers, teamData.removeUsers, team, inactivity);
        services.SendMessageToPlaintextChannelName(message, teamData.slackChannel.value);
        AppendAssoc(old(services.trace) + done, calls, [SendMessageCall(message, teamData.slackChannel.value)]);
        calls := calls + [SendMessageCall(message, teamData.slackChannel.value)];
      }
      assert calls == TeamCalls(team, teamData, inactiveUsers, inactivity);
      ReportStepOk(teams, i, inactivity, services.inactiveUsersOf);
      AppendAssoc(old(services.trace), done, calls);
    }
    assert teams[..|teams|] == teams;
  }
}
