/**
 * The room requests of xmpp_muc.go (Multi-User Chat, XEP-0045). Each operation builds one
 * stanza from its arguments and hands it to a single send call; here it returns that stanza
 * as a value, or the error it returns without sending. XML escaping and the exact text
 * layout belong to the renderer and are not modelled.
 */
module Muc {
  import opened Results
  import opened Jid
  import Decimal

  const NoHistory: int := 0
  const CharHistory: int := 1
  const StanzaHistory: int := 2
  const SecondsHistory: int := 3
  const SinceHistory: int := 4

  /** A point in time; only its RFC 3339 rendering reaches the wire, and that rendering is not modelled. */
  datatype Time = Time(unixSeconds: int, nanos: nat, utcOffsetSeconds: int)

  /** The `<history/>` element of a join, section 7.2.15 of XEP-0045. */
  datatype History =
    | MaxChars(chars: int)
    | MaxStanzas(stanzas: int)
    | Seconds(seconds: int)
    | Since(date: Time)

  /**
   * A presence sent to `room/nick` carrying `<x xmlns='http://jabber.org/protocol/muc'>`
   * with an optional `<password>` followed by an optional `<history/>`.
   */
  datatype JoinRequest = JoinRequest(room: string, nick: string, password: Option<string>, history: Option<History>)
  {
    function To(): string
    {
      OccupantJid(room, nick)
    }
  }

  /** A presence with a sender, a recipient and an optional type attribute. */
  datatype Presence = Presence(from: string, to: string, presenceType: Option<string>)

  /** The `<item/>` of a `muc#admin` query. */
  datatype AdminItem =
    | AffiliationItem(affiliation: string, jid: string)
    | RoleItem(nick: string, role: string)

  /** An IQ of type `set` carrying a `muc#admin` query with one item and its reason. */
  datatype AdminIq = AdminIq(from: string, id: string, to: string, item: AdminItem, reason: string)

  const UnknownHistoryOption: string := "Unknown history option"

  /** The nickname a join uses: the one given, or else the local part of the client's own JID. */
  function JoinNick(clientJid: string, nick: string): string
  {
    if nick == "" then LocalPart(clientJid) else nick
  }

  /** Whether a history type is accepted, given whether a date came with it. */
  predicate KnownHistory(historyType: int, date: Option<Time>)
  {
    NoHistory <= historyType <= SecondsHistory || (historyType == SinceHistory && date.Some?)
  }

  /** JoinMUCNoHistory: enter a room asking for no history at all (`maxchars='0'`). */
  function JoinMucNoHistory(clientJid: string, room: string, nick: string): (r: JoinRequest)
    ensures r.room == room && r.nick == JoinNick(clientJid, nick)
    ensures r.password == None && r.history == Some(MaxChars(0))
  {
    JoinRequest(room, JoinNick(clientJid, nick), None, Some(MaxChars(0)))
  }

  /** JoinMUC: enter a room with the history option selected by `historyType`. */
  function JoinMuc(clientJid: string, room: string, nick: string, historyType: int, history: int, date: Option<Time>)
    : (r: Result<JoinRequest, string>)
    ensures r.Ok? <==> KnownHistory(historyType, date)
    ensures r.Err? ==> r.error == UnknownHistoryOption
    ensures r.Ok? ==> r.value.room == room && r.value.nick == JoinNick(clientJid, nick) && r.value.password == None
    ensures r.Ok? ==> (r.value.history == None <==> historyType == NoHistory)
  {
    var n := JoinNick(clientJid, nick);
    match historyType
    case 0 => Ok(JoinRequest(room, n, None, None))
    case 1 => Ok(JoinRequest(room, n, None, Some(MaxChars(history))))
    case 2 => Ok(JoinRequest(room, n, None, Some(MaxStanzas(history))))
    case 3 => Ok(JoinRequest(room, n, None, Some(Seconds(history))))
    case 4 =>
      if date.Some? then Ok(JoinRequest(room, n, None, Some(Since(date.value))))
      else Err(UnknownHistoryOption)
    case _ => Err(UnknownHistoryOption)
  }

  /** JoinProtectedMUC: as JoinMUC, with a `<password>` placed before any history element. */
  function JoinProtectedMuc(clientJid: string, room: string, nick: string, password: string,
                            historyType: int, history: int, date: Option<Time>)
    : (r: Result<JoinRequest, string>)
    ensures r.Ok? <==> KnownHistory(historyType, date)
    ensures r.Err? ==> r.error == UnknownHistoryOption + ": " + Decimal.FormatInt(historyType)
    ensures r.Ok? ==> r.value.room == room && r.value.nick == JoinNick(clientJid, nick) && r.value.password == Some(password)
  {
    var n := JoinNick(clientJid, nick);
    var p := Some(password);
    match historyType
    case 0 => Ok(JoinRequest(room, n, p, None))
    case 1 => Ok(JoinRequest(room, n, p, Some(MaxChars(history))))
    case 2 => Ok(JoinRequest(room, n, p, Some(MaxStanzas(history))))
    case 3 => Ok(JoinRequest(room, n, p, Some(Seconds(history))))
    case 4 =>
      if date.Some? then Ok(JoinRequest(room, n, p, Some(Since(date.value))))
      else Err(UnknownHistoryOption + ": " + Decimal.FormatInt(historyType))
    case _ => Err(UnknownHistoryOption + ": " + Decimal.FormatInt(historyType))
  }

  /** The history type number that selects `h`; the reference reading of the switch in JoinMUC. */
  function HistoryType(h: Option<History>): int
  {
    match h
    case None => NoHistory
    case Some(MaxChars(_)) => CharHistory
    case Some(MaxStanzas(_)) => StanzaHistory
    case Some(Seconds(_)) => SecondsHistory
    case Some(Since(_)) => SinceHistory
  }

  /** The count argument that goes with `h` (ignored for no history and for `since`). */
  function HistoryCount(h: Option<History>): int
  {
    match h
    case Some(MaxChars(n)) => n
    case Some(MaxStanzas(n)) => n
    case Some(Seconds(n)) => n
    case _ => 0
  }

  /** The date argument that goes with `h`. */
  function HistoryDate(h: Option<History>): Option<Time>
  {
    match h
    case Some(Since(d)) => Some(d)
    case _ => None
  }

  /** Every history option can be asked for: encoding it as JoinMUC's arguments selects it again. */
  lemma JoinMucSelectsEveryHistory(clientJid: string, room: string, nick: string, h: Option<History>)
    ensures JoinMuc(clientJid, room, nick, HistoryType(h), HistoryCount(h), HistoryDate(h))
         == Ok(JoinRequest(room, JoinNick(clientJid, nick), None, h))
  {
  }

  /**
   * A granted join carries exactly what was asked for: the history type of its element is the
   * requested one, a count-limited element carries `history`, and a `since` element carries the date.
   */
  lemma JoinMucHistoryMatchesArguments(clientJid: string, room: string, nick: string,
                                       historyType: int, history: int, date: Option<Time>)
    requires JoinMuc(clientJid, room, nick, historyType, history, date).Ok?
    ensures var h := JoinMuc(clientJid, room, nick, historyType, history, date).value.history;
      && HistoryType(h) == historyType
      && (NoHistory < historyType < SinceHistory ==> HistoryCount(h) == history)
      && (historyType == SinceHistory ==> HistoryDate(h) == date)
  {
  }

  /** JoinProtectedMUC makes JoinMUC's choice, only adding the password; it fails exactly when JoinMUC does. */
  lemma JoinProtectedMucExtendsJoinMuc(clientJid: string, room: string, nick: string, password: string,
                                       historyType: int, history: int, date: Option<Time>)
    ensures var plain := JoinMuc(clientJid, room, nick, historyType, history, date);
      var protected := JoinProtectedMuc(clientJid, room, nick, password, historyType, history, date);
      && (plain.Ok? <==> protected.Ok?)
      && (plain.Ok? ==> protected.value == plain.value.(password := Some(password)))
  {
  }

  /** JoinProtectedMUC's error names the rejected type: two rejections with the same text rejected the same type. */
  lemma JoinProtectedMucErrorNamesType(clientJid: string, room: string, nick: string, password: string,
                                       t1: int, t2: int, history: int, date: Option<Time>)
    requires JoinProtectedMuc(clientJid, room, nick, password, t1, history, date).Err?
    requires JoinProtectedMuc(clientJid, room, nick, password, t2, history, date).Err?
    requires JoinProtectedMuc(clientJid, room, nick, password, t1, history, date).error
          == JoinProtectedMuc(clientJid, room, nick, password, t2, history, date).error
    ensures t1 == t2
  {
    var prefix := UnknownHistoryOption + ": ";
    var s1, s2 := Decimal.FormatInt(t1), Decimal.FormatInt(t2);
    assert s1 == (prefix + s1)[|prefix|..];
    assert s2 == (prefix + s2)[|prefix|..];
    Decimal.FormatIntInjective(t1, t2);
  }

  /** JoinMUCNoHistory asks for `maxchars='0'`, the same as JoinMUC with CharHistory and 0, not as JoinMUC with NoHistory. */
  lemma JoinMucNoHistoryIsZeroChars(clientJid: string, room: string, nick: string)
    ensures Ok(JoinMucNoHistory(clientJid, room, nick)) == JoinMuc(clientJid, room, nick, CharHistory, 0, None)
    ensures Ok(JoinMucNoHistory(clientJid, room, nick)) != JoinMuc(clientJid, room, nick, NoHistory, 0, None)
  {
  }

  /** A join goes to the occupant address `room/nick`, which splits back into the room and the nickname. */
  lemma JoinAddressedToOccupant(clientJid: string, room: string, nick: string, historyType: int, history: int, date: Option<Time>)
    requires '/' !in room
    requires JoinMuc(clientJid, room, nick, historyType, history, date).Ok?
    ensures var to := JoinMuc(clientJid, room, nick, historyType, history, date).value.To();
      && BareJid(to) == room
      && to[|room| + 1..] == JoinNick(clientJid, nick)
  {
    OccupantJidSplits(room, JoinNick(clientJid, nick));
  }

  /** With no nickname given, the join uses the client's local part, which carries no `@`. */
  lemma DefaultNickIsLocalPart(clientJid: string, room: string, historyType: int, history: int, date: Option<Time>)
    requires JoinMuc(clientJid, room, "", historyType, history, date).Ok?
    ensures var nick := JoinMuc(clientJid, room, "", historyType, history, date).value.nick;
      && nick <= clientJid && '@' !in nick
      && ('@' in clientJid ==> clientJid[|nick|] == '@')
  {
  }

  /** LeaveMUC: an unavailable presence from the client to the room. */
  function LeaveMuc(clientJid: string, room: string): (p: Presence)
    ensures p.from == clientJid && p.to == room && p.presenceType == Some("unavailable")
  {
    Presence(clientJid, room, Some("unavailable"))
  }

  /** ChangeNick: a presence from the client to `room/nick`, no type, no escaping. */
  function ChangeNick(clientJid: string, room: string, nick: string): (p: Presence)
    ensures p.from == clientJid && p.presenceType == None
    ensures |p.to| == |room| + 1 + |nick|
    ensures p.to[..|room|] == room && p.to[|room|] == '/' && p.to[|room| + 1..] == nick
  {
    Presence(clientJid, OccupantJid(room, nick), None)
  }

  /** The new occupant address files under the room's bare JID when the room has no `/`, whatever the nickname holds. */
  lemma ChangeNickStaysInRoom(clientJid: string, room: string, nick: string)
    requires '/' !in room
    ensures BareJid(ChangeNick(clientJid, room, nick).to) == room
  {
  }

  /** SetRoomAffiliation: a `set` of `jid`'s affiliation, sent to the room. */
  function SetRoomAffiliation(clientJid: string, room: string, jid: string, affiliation: string, reason: string)
    : (iq: AdminIq)
    ensures iq.from == clientJid && iq.id == "ban1" && iq.to == room && iq.reason == reason
    ensures iq.item == AffiliationItem(affiliation, jid)
  {
    AdminIq(clientJid, "ban1", room, AffiliationItem(affiliation, jid), reason)
  }

  /** Ban: set the affiliation to `outcast`. */
  function Ban(clientJid: string, room: string, jid: string, reason: string): (iq: AdminIq)
    ensures iq == SetRoomAffiliation(clientJid, room, jid, "outcast", reason)
    ensures iq.to == room && iq.item.affiliation == "outcast" && iq.item.jid == jid
  {
    SetRoomAffiliation(clientJid, room, jid, "outcast", reason)
  }

  /** SetRoomRole: a `set` of the role of occupant `nick`, sent to the room. */
  function SetRoomRole(clientJid: string, room: string, nick: string, role: string, reason: string): (iq: AdminIq)
    ensures iq.from == clientJid && iq.id == "voice1" && iq.to == room && iq.reason == reason
    ensures iq.item == RoleItem(nick, role)
  {
    AdminIq(clientJid, "voice1", room, RoleItem(nick, role), reason)
  }

  /** The room that Kick addresses whatever room it is given (the example room of XEP-0045). */
  const KickAddress: string := "harfleur@chat.shakespeare.lit"

  /** Kick as written: role `none` for `nick`, sent to KickAddress; `room` is not used. */
  function Kick(clientJid: string, room: string, nick: string, reason: string): (iq: AdminIq)
    ensures iq.from == clientJid && iq.id == "kick1" && iq.to == KickAddress
    ensures iq.item == RoleItem(nick, "none") && iq.reason == reason
  {
    AdminIq(clientJid, "kick1", KickAddress, RoleItem(nick, "none"), reason)
  }

  /** Kicking from any room other than KickAddress sends the request to the wrong room. */
  lemma KickMissesRoom(clientJid: string, nick: string, reason: string)
    ensures Kick(clientJid, "coven@chat.shakespeare.lit", nick, reason).to != "coven@chat.shakespeare.lit"
  {
  }

  /** Kick as intended: role `none` for `nick`, sent to the room it is asked about. */
  function KickFromRoom(clientJid: string, room: string, nick: string, reason: string): (iq: AdminIq)
    ensures iq.from == clientJid && iq.id == "kick1" && iq.to == room
    ensures iq.item == RoleItem(nick, "none") && iq.reason == reason
  {
    AdminIq(clientJid, "kick1", room, RoleItem(nick, "none"), reason)
  }

  /** The intended Kick is SetRoomRole with role `none`, apart from the request id. */
  lemma KickFromRoomIsRoleNone(clientJid: string, room: string, nick: string, reason: string)
    ensures KickFromRoom(clientJid, room, nick, reason)
         == SetRoomRole(clientJid, room, nick, "none", reason).(id := "kick1")
  {
  }
}
