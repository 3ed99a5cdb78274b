/**
 * Address handling shared by the hub and the room requests: a JID is a plain string
 * `local@domain/resource`, and both components cut it at the first occurrence of a
 * separator character, as element 0 of Go's `strings.Split(s, sep)` does.
 */
module Jid {

  /** The part of `s` before the first `sep`, or all of `s` when `sep` does not occur. */
  function BeforeFirst(s: string, sep: char): (r: string)
    ensures r <= s
    ensures sep !in r
    ensures |r| < |s| ==> s[|r|] == sep
  {
    if |s| == 0 || s[0] == sep then [] else [s[0]] + BeforeFirst(s[1..], sep)
  }

  /** The three ensures of BeforeFirst determine its result: any prefix with the same properties is it. */
  lemma BeforeFirstUnique(s: string, sep: char, p: string)
    requires p <= s && sep !in p
    requires |p| < |s| ==> s[|p|] == sep
    ensures p == BeforeFirst(s, sep)
  {
  }

  /** Cutting a string that does not contain the separator leaves it whole. */
  lemma BeforeFirstWithoutSep(s: string, sep: char)
    requires sep !in s
    ensures BeforeFirst(s, sep) == s
  {
  }

  /** Cutting `a + sep + b` gives back `a` when `a` has no separator. */
  lemma BeforeFirstOfJoin(a: string, sep: char, b: string)
    requires sep !in a
    ensures BeforeFirst(a + [sep] + b, sep) == a
  {
    var s := a + [sep] + b;
    assert a <= s;
    assert s[|a|] == sep;
    BeforeFirstUnique(s, sep, a);
  }

  /** Cutting twice is cutting once. */
  lemma BeforeFirstIdempotent(s: string, sep: char)
    ensures BeforeFirst(BeforeFirst(s, sep), sep) == BeforeFirst(s, sep)
  {
  }

  /** The bare JID: the address without its `/resource` part (utils/hub.go keys its table by it). */
  function BareJid(jid: string): string
  {
    BeforeFirst(jid, '/')
  }

  /** The local part of an address, before the `@`; the whole address when it has no `@`. */
  function LocalPart(jid: string): string
  {
    BeforeFirst(jid, '@')
  }

  /** The occupant address `room/nick` of a nickname in a room, with no escaping. */
  function OccupantJid(room: string, nick: string): string
  {
    room + "/" + nick
  }

  /**
   * An occupant address splits back into its room and nickname when the room has no `/`,
   * whatever the nickname contains; its bare JID is the room.
   */
  lemma OccupantJidSplits(room: string, nick: string)
    requires '/' !in room
    ensures BareJid(OccupantJid(room, nick)) == room
    ensures OccupantJid(room, nick)[|room| + 1..] == nick
  {
    BeforeFirstOfJoin(room, '/', nick);
    assert OccupantJid(room, nick) == room + ['/'] + nick;
  }
}
