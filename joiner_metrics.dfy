/** The weekly new-joiner report of bin/fetch_github_joiner_metrics.py: split the members added to the
    organisation into those an Operations Engineering account added and those added by anyone else,
    count the former, and post one summary message when there was anybody new. */
module JoinerMetrics {
  import opened Wrappers
  import opened Text
  import opened Seqs

  /** One `org.add_member` entry of the audit log: who joined and who added them. */
  datatype NewMember = NewMember(userLogin: string, actorLogin: string)

  /** The look-back window of the report, in days. */
  const TimeDeltaInDays: int := 7

  /** The texts the script passes to the message in place of the two member lists. */
  const OpsEngPlaceholder: string := "new members from ops eng"
  const ExternalPlaceholder: string := "new external members"

  /** The audit-log search for member additions in organisation `org`. */
  function AuditLogUrl(org: string): string {
    AuditLogUrlHead + org + AuditLogUrlTail
  }

  const AuditLogUrlHead: string := "https://github.com/" + "organizations/"
  const AuditLogUrlTail: string := "/settings/audit-log" + ("?q=action%3A" + "org.add_member")

  /** The link is a GitHub address that names the organisation and ends with the `org.add_member` query. */
  lemma AuditLogUrlShape(org: string)
    ensures StartsWith(AuditLogUrl(org), "https://github.com/")
    ensures Contains(AuditLogUrl(org), org)
    ensures EndsWith(AuditLogUrl(org), "?q=action%3A" + "org.add_member")
  {
    ContainsInfix(AuditLogUrlHead, org, AuditLogUrlTail);
  }

  /** The line the loop writes for one new member: it starts with who joined, names who added them,
      and is one line ending in a newline when the logins hold none. */
  function MemberLine(m: NewMember): (line: string)
    ensures StartsWith(line, m.userLogin)
    ensures Contains(line, m.actorLogin)
    ensures EndsWith(line, ".\n")
    ensures '\n' !in m.userLogin && '\n' !in m.actorLogin ==> '\n' !in line[..|line| - 1]
  {
    ContainsInfix(m.userLogin + " added by ", m.actorLogin, ".\n");
    m.userLogin + " added by " + m.actorLogin + ".\n"
  }

  /** The lines of several members, one after the other in list order. */
  function MemberLines(members: seq<NewMember>): string
    decreases |members|
  {
    if members == [] then "" else MemberLine(members[0]) + MemberLines(members[1..])
  }

  lemma {:induction false} MemberLinesAppend(a: seq<NewMember>, b: seq<NewMember>)
    ensures MemberLines(a + b) == MemberLines(a) + MemberLines(b)
    decreases |a|
  {
    if a == [] {
      assert a + b == b;
    } else {
      assert (a + b)[0] == a[0];
      assert (a + b)[1..] == a[1..] + b;
      MemberLinesAppend(a[1..], b);
    }
  }

  /** The new members an Operations Engineering account added, in audit-log order. */
  function AddedByOpsEng(members: seq<NewMember>, opsEng: seq<string>): (r: seq<NewMember>)
    ensures |r| <= |members|
    ensures forall m :: m in r <==> m in members && m.actorLogin in opsEng
  {
    Filter(members, (m: NewMember) => m.actorLogin in opsEng)
  }

  /** The new members anyone else added, in audit-log order. */
  function AddedExternally(members: seq<NewMember>, opsEng: seq<string>): (r: seq<NewMember>)
    ensures |r| <= |members|
    ensures forall m :: m in r <==> m in members && m.actorLogin !in opsEng
  {
    Filter(members, (m: NewMember) => m.actorLogin !in opsEng)
  }

  /** Every new member lands in exactly one of the two groups, as often as it occurs. */
  lemma GroupsPartitionMembers(members: seq<NewMember>, opsEng: seq<string>)
    ensures |AddedByOpsEng(members, opsEng)| + |AddedExternally(members, opsEng)| == |members|
    ensures multiset(AddedByOpsEng(members, opsEng)) + multiset(AddedExternally(members, opsEng)) == multiset(members)
  {
    FilterPartition(members, (m: NewMember) => m.actorLogin in opsEng, (m: NewMember) => m.actorLogin !in opsEng);
  }

  /** One more member at the end adds one line to the lines of a list. */
  lemma MemberLinesSnoc(members: seq<NewMember>, m: NewMember)
    ensures MemberLines(members + [m]) == MemberLines(members) + MemberLine(m)
  {
    MemberLinesAppend(members, [m]);
    assert MemberLines([m]) == MemberLine(m) + "";
  }

  /** One more member at the end joins the Operations Engineering group exactly when an
      Operations Engineering account added them. */
  lemma AddedByOpsEngSnoc(members: seq<NewMember>, m: NewMember, opsEng: seq<string>)
    ensures AddedByOpsEng(members + [m], opsEng)
            == if m.actorLogin in opsEng then AddedByOpsEng(members, opsEng) + [m] else AddedByOpsEng(members, opsEng)
  {
    FilterSnoc(members, m, (x: NewMember) => x.actorLogin in opsEng);
  }

  /** One more member at the end joins the external group exactly when anyone else added them. */
  lemma AddedExternallySnoc(members: seq<NewMember>, m: NewMember, opsEng: seq<string>)
    ensures AddedExternally(members + [m], opsEng)
            == if m.actorLogin in opsEng then AddedExternally(members, opsEng) else AddedExternally(members, opsEng) + [m]
  {
    FilterSnoc(members, m, (x: NewMember) => x.actorLogin !in opsEng);
  }

  /** What one more iteration of the loop of `main` adds to the two texts and the count. */
  lemma TallyStep(members: seq<NewMember>, i: nat, opsEng: seq<string>)
    requires i < |members|
    ensures var m, before, after := members[i], members[..i], members[..i + 1];
      if m.actorLogin in opsEng then
        && MemberLines(AddedByOpsEng(after, opsEng)) == MemberLines(AddedByOpsEng(before, opsEng)) + MemberLine(m)
        && |AddedByOpsEng(after, opsEng)| == |AddedByOpsEng(before, opsEng)| + 1
        && AddedExternally(after, opsEng) == AddedExternally(before, opsEng)
      else
        && AddedByOpsEng(after, opsEng) == AddedByOpsEng(before, opsEng)
        && MemberLines(AddedExternally(after, opsEng)) == MemberLines(AddedExternally(before, opsEng)) + MemberLine(m)
  {
    var m, before := members[i], members[..i];
    assert members[..i + 1] == before + [m];
    AddedByOpsEngSnoc(before, m, opsEng);
    AddedExternallySnoc(before, m, opsEng);
    if m.actorLogin in opsEng {
      MemberLinesSnoc(AddedByOpsEng(before, opsEng), m);
    } else {
      MemberLinesSnoc(AddedExternally(before, opsEng), m);
    }
  }

  /** With no new members both groups are empty. */
  lemma NoMembersNoLines(opsEng: seq<string>)
    ensures AddedByOpsEng([], opsEng) == [] && AddedExternally([], opsEng) == []
    ensures MemberLines([]) == ""
  {
  }

  /** The fraction of new members Operations Engineering added. */
  function OpsEngShare(addedByOpsEng: nat, totalNewMembers: nat): real
    requires totalNewMembers > 0
  {
    addedByOpsEng as real / totalNewMembers as real
  }

  /** The share is a fraction between 0 and 1. */
  lemma OpsEngShareIsFraction(members: seq<NewMember>, opsEng: seq<string>)
    requires members != []
    ensures 0.0 <= OpsEngShare(|AddedByOpsEng(members, opsEng)|, |members|) <= 1.0
  {
    GroupsPartitionMembers(members, opsEng);
    var k, n := |AddedByOpsEng(members, opsEng)| as real, |members| as real;
    assert 0.0 <= k <= n && n >= 1.0;
    QuotientAtMostOne(k, n);
  }

  lemma QuotientAtMostOne(x: real, y: real)
    requires 0.0 <= x <= y && y > 0.0
    ensures 0.0 <= x / y <= 1.0
  {
    var q := x / y;
    assert q * y == x;
  }

  /** The last line of the message. */
  const BotSignature: string := "The GitHub Organisation" + " Monitoring Bot"

  /** `new_members_detected_message`: the f-string, piece by piece. It closes with the bot's
      signature. */
  function NewMembersDetectedMessage(
    newMembersAddedByOe: string, newMembersAddedExternally: string, percentage: int,
    totalNewMembers: int, org: string, auditLogUrl: string, timeDeltaInDays: int): (msg: string)
    ensures EndsWith(msg, BotSignature)
  {
    ConcatEndsWith(MessagePieces(newMembersAddedByOe, newMembersAddedExternally, percentage,
                                 totalNewMembers, org, auditLogUrl, timeDeltaInDays));
    Concat(MessagePieces(newMembersAddedByOe, newMembersAddedExternally, percentage,
                         totalNewMembers, org, auditLogUrl, timeDeltaInDays))
  }

  function MessagePieces(
    newMembersAddedByOe: string, newMembersAddedExternally: string, percentage: int,
    totalNewMembers: int, org: string, auditLogUrl: string, timeDeltaInDays: int): (pieces: seq<string>)
    ensures |pieces| == 21
  {
    [ "Hi all, \n\n",
      "Here are the ", IntToString(totalNewMembers), " new joiners added in the last ",
      IntToString(timeDeltaInDays), " days within the '", org, "' GitHub org. \n\n",
      "*Added by Operations" + " Engineering:*\n",
      newMembersAddedByOe, "\n\n",
      "*Added externally:*\n",
      newMembersAddedExternally, "\n\n",
      IntToString(percentage), "% of the new joiners" + " were added by" + " operations engineering.\n\n",
      "Please review the audit log" + " for more details: ", auditLogUrl, "\n\n",
      "Have a swell day, \n\n",
      BotSignature ]
  }

  /** The message names the number of joiners, the window and the organisation. */
  lemma MessageMentionsCounts(
    byOe: string, externally: string, percentage: int,
    total: int, org: string, url: string, days: int)
    ensures var msg := NewMembersDetectedMessage(byOe, externally, percentage, total, org, url, days);
      && Contains(msg, IntToString(total))
      && Contains(msg, IntToString(days))
      && Contains(msg, org)
  {
    var pieces := MessagePieces(byOe, externally, percentage, total, org, url, days);
    assert NewMembersDetectedMessage(byOe, externally, percentage, total, org, url, days) == Concat(pieces);
    ConcatContains(pieces, 2);
    ConcatContains(pieces, 4);
    ConcatContains(pieces, 6);
  }

  /** The message holds both member texts, the percentage and the audit-log link. */
  lemma MessageMentionsTexts(
    byOe: string, externally: string, percentage: int,
    total: int, org: string, url: string, days: int)
    ensures var msg := NewMembersDetectedMessage(byOe, externally, percentage, total, org, url, days);
      && Contains(msg, byOe)
      && Contains(msg, externally)
      && Contains(msg, IntToString(percentage))
      && Contains(msg, url)
  {
    var pieces := MessagePieces(byOe, externally, percentage, total, org, url, days);
    assert NewMembersDetectedMessage(byOe, externally, percentage, total, org, url, days) == Concat(pieces);
    ConcatContains(pieces, 9);
    ConcatContains(pieces, 12);
    ConcatContains(pieces, 14);
    ConcatContains(pieces, 17);
  }

  /** The loop of `main` over the new members: each member's line goes to the Operations Engineering
      text or to the external text, and the first group is counted. */
  method TallyNewMembers(newMembers: seq<NewMember>, opsEng: seq<string>)
    returns (newMembersAddedByOe: string, newMembersAddedExternally: string, totalMembersAddedByOe: nat)
    ensures newMembersAddedByOe == MemberLines(AddedByOpsEng(newMembers, opsEng))
    ensures newMembersAddedExternally == MemberLines(AddedExternally(newMembers, opsEng))
    ensures totalMembersAddedByOe == |AddedByOpsEng(newMembers, opsEng)|
  {
    newMembersAddedByOe, newMembersAddedExternally, totalMembersAddedByOe := "", "", 0;
    for i := 0 to |newMembers|
      invariant newMembersAddedByOe == MemberLines(AddedByOpsEng(newMembers[..i], opsEng))
      invariant newMembersAddedExternally == MemberLines(AddedExternally(newMembers[..i], opsEng))
      invariant totalMembersAddedByOe == |AddedByOpsEng(newMembers[..i], opsEng)|
    {
      var member := newMembers[i];
      var individualMessage := MemberLine(member);
      TallyStep(newMembers, i, opsEng);
      if member.actorLogin in opsEng {
        newMembersAddedByOe := newMembersAddedByOe + individualMessage;
        totalMembersAddedByOe := totalMembersAddedByOe + 1;
      } else {
        newMembersAddedExternally := newMembersAddedExternally + individualMessage;
      }
    }
    assert newMembers[..|newMembers|] == newMembers;
  }

  /** The body of `main` after the audit-log query: partition the new members, count those added by
      Operations Engineering, and compose the Slack message for the report channel when there was
      anybody new. `roundPercentage` stands for Python's `round` of the floating-point percentage. */
  method ReportNewJoiners(newMembers: seq<NewMember>, opsEng: seq<string>, org: string, roundPercentage: real -> int)
    returns (newMembersAddedByOe: string, newMembersAddedExternally: string, totalMembersAddedByOe: nat, message: Option<string>)
    ensures newMembersAddedByOe == MemberLines(AddedByOpsEng(newMembers, opsEng))
    ensures newMembersAddedExternally == MemberLines(AddedExternally(newMembers, opsEng))
    ensures totalMembersAddedByOe == |AddedByOpsEng(newMembers, opsEng)|
    ensures message.Some? <==> newMembers != []
    ensures newMembers != [] ==> message.value == NewMembersDetectedMessage(
      OpsEngPlaceholder, ExternalPlaceholder,
      roundPercentage(OpsEngShare(totalMembersAddedByOe, |newMembers|) * 100.0),
      |newMembers|, org, AuditLogUrl(org), TimeDeltaInDays)
  {
    var auditLogUrl := AuditLogUrl(org);
    var totalNewMembers := |newMembers|;
    if newMembers != [] {
      newMembersAddedByOe, newMembersAddedExternally, totalMembersAddedByOe := TallyNewMembers(newMembers, opsEng);
      var percentage := roundPercentage(OpsEngShare(totalMembersAddedByOe, |newMembers|) * 100.0);
      message := Some(NewMembersDetectedMessage(
        OpsEngPlaceholder, ExternalPlaceholder, percentage, totalNewMembers, org, auditLogUrl, TimeDeltaInDays));
    } else {
      newMembersAddedByOe, newMembersAddedExternally, totalMembersAddedByOe := "", "", 0;
      NoMembersNoLines(opsEng);
      message := None;
    }
  }
}
