/**
 * The pure display helpers shared by the chat components: online status,
 * the header/list-item display of a chat, and the empty-input rule of the
 * chat timestamp formatter.
 */
module Helper {
  import opened Options
  import opened Entities
  import opened Text

  /** isUserOnline, with the socket's online-user list passed in. */
  function IsUserOnline(userId: Option<string>, online: seq<string>): (b: bool)
    ensures !Present(userId) ==> !b
    ensures Present(userId) ==> (b <==> userId.value in online)
  {
    Present(userId) && userId.value in online
  }

  /** Index of the first participant whose id is not the current user's, or -1. */
  function FirstOtherIndex(ps: seq<User>, userId: Option<string>): (i: int)
    ensures -1 <= i < |ps|
    ensures i == -1 <==> forall j :: 0 <= j < |ps| ==> Some(ps[j].id) == userId
    ensures 0 <= i ==> Some(ps[i].id) != userId && forall j :: 0 <= j < i ==> Some(ps[j].id) == userId
  {
    if ps == [] then -1
    else if Some(ps[0].id) != userId then 0
    else
      var k := FirstOtherIndex(ps[1..], userId);
      assert forall j :: 0 < j < |ps| ==> ps[j] == ps[1..][j - 1];
      if k == -1 then -1 else k + 1
  }

  /** What the header and the list item show for a chat; `isOnline` is absent for a group. */
  datatype Display = Display(name: string, avatar: string, isGroup: bool, subheading: string, isOnline: Option<bool>)

  const Members := " members"

  /** getOtherUserAndGroup */
  function GetOtherUserAndGroup(chat: Chat, userId: Option<string>, online: seq<string>): (d: Display)
    ensures d.isGroup == chat.isGroup
    ensures chat.isGroup ==>
      && d.name == (if Present(chat.groupName) then chat.groupName.value else "Unnamed Group")
      && d.avatar == (if Present(chat.groupImage) then chat.groupImage.value else "")
      && d.subheading == NatToString(|chat.participants|) + Members
      && d.isOnline.None?
    ensures !chat.isGroup ==>
      var i := FirstOtherIndex(chat.participants, userId);
      && d.isOnline == Some(0 <= i && IsUserOnline(Some(chat.participants[i].id), online))
      && d.subheading == (if d.isOnline.value then "Online" else "Offline")
      && (i == -1 ==> d.name == "Unknown User" && d.avatar == "" && !d.isOnline.value)
      && (0 <= i ==> d.name == (if chat.participants[i].name != "" then chat.participants[i].name else "Unknown User"))
      && (0 <= i ==> d.avatar == (if Present(chat.participants[i].avatar) then chat.participants[i].avatar.value else ""))
  {
    if chat.isGroup then
      Display(
        if Present(chat.groupName) then chat.groupName.value else "Unnamed Group",
        if Present(chat.groupImage) then chat.groupImage.value else "",
        true,
        NatToString(|chat.participants|) + Members,
        None)
    else
      var i := FirstOtherIndex(chat.participants, userId);
      var other: Option<User> := if i == -1 then None else Some(chat.participants[i]);
      var isOnline := IsUserOnline(Some(if other.Some? then other.value.id else ""), online);
      Display(
        if other.Some? && other.value.name != "" then other.value.name else "Unknown User",
        if other.Some? && Present(other.value.avatar) then other.value.avatar.value else "",
        false,
        if isOnline then "Online" else "Offline",
        Some(isOnline))
  }

  /** A group's subheading states its participant count, which can be read back from it. */
  lemma GroupSubheadingCountsMembers(chat: Chat, userId: Option<string>, online: seq<string>)
    requires chat.isGroup
    ensures
      var s := GetOtherUserAndGroup(chat, userId, online).subheading;
      |s| > |Members| && s[|s| - |Members|..] == Members && DecimalValue(s[..|s| - |Members|]) == |chat.participants|
  {
    var n := NatToString(|chat.participants|);
    var s := n + Members;
    assert s[..|s| - |Members|] == n;
    assert s[|s| - |Members|..] == Members;
    NatToStringRoundTrip(|chat.participants|);
  }

  /** A direct chat whose only participant is the current user shows the fallback and offline. */
  lemma SelfOnlyDirectChat(chat: Chat, userId: Option<string>, online: seq<string>)
    requires !chat.isGroup && forall j :: 0 <= j < |chat.participants| ==> Some(chat.participants[j].id) == userId
    ensures GetOtherUserAndGroup(chat, userId, online) == Display("Unknown User", "", false, "Offline", Some(false))
  {
  }

  /**
   * formatChatTime: an empty date renders as the empty string; any other input
   * renders as the date formatter's output `formatted`, which is outside this model.
   */
  function FormatChatTime(date: string, formatted: string): (r: string)
    ensures date == "" ==> r == ""
    ensures date != "" ==> r == formatted
  {
    if date == "" then "" else formatted
  }
}
