# go-xmpp2: connection hub and Multi-User Chat join requests, in Dafny

This project models two parts of the go-xmpp2 client library and proves properties of them.

- **The connection hub** (`utils/hub.go`). `XMPPHub` is a table from bare JID to client. `Register` files a
  client under the part of its address before the first `/`, replacing whatever was there.
  `Unregister` closes the client filed under a key and removes the entry. `Get` and `Len` look things up.
  `SendBroadcast` hands one payload to every client. A failed send neither stops the loop nor evicts the client.
  `Range` visits entries until its callback returns false. The model is the class `Hub.XmppHub`. Its
  `connections` map field is reassigned in place, and its loops run over the key set in an arbitrary order,
  as Go's map iteration does. Clients are `Hub.Client` objects whose ghost fields record the hub's calls on them:
  `sent` holds the payloads handed to `SendString`, and `closeCount` counts calls to `Close`. Whether a send
  fails is left open. The object invariant `Valid()` says every client is filed under the bare form of its
  own address. So no client sits under two keys, and a broadcast reaches each client exactly once.
- **Room requests of XEP-0045** (`xmpp_muc.go`). `JoinMUCNoHistory`, `JoinMUC` and `JoinProtectedMUC`
  default an empty nickname to the local part of the client's JID. They address the presence to
  `room/nick` and pick a history element from a numeric type: none, `maxchars`, `maxstanzas`, `seconds` or
  `since` (section 7.2 of XEP-0045). `JoinProtectedMUC` adds a `<password>` before the history element
  (section 7.2.6). An unknown type, or the `since` type without a date, is an error and nothing is sent.
  `LeaveMUC`, `ChangeNick`, `SetRoomAffiliation`, `Ban`, `SetRoomRole` and `Kick` are modelled by whom
  their stanza is from, whom it is addressed to and what it carries. Each is a function that returns the
  stanza as a value, or the error string.

Module `Jid` holds the address cutting that both parts share. Go's `strings.Split(s, sep)[0]` is
`Jid.BeforeFirst`. Module `Decimal` models Go's `%d`, which `JoinProtectedMUC` uses to put the rejected
type into its error text. Module `Results` holds `Option` and `Result`.

The client's own JID, which the room requests read from the `Client` receiver, is a parameter
(`clientJid`). A `*time.Time` date is an `Option<Time>`.

- `Unregister` does not guard its lookup. utils/hub.go:28 calls `Close` on whatever the map returns, which
  is nil for an absent key, so `Unregister` requires the key to be present.
- `Register` never closes a client it replaces (utils/hub.go:21). The model's `Register` modifies only the hub.

## Model

| member | source | states |
|---|---|---|
| Jid.BeforeFirst | utils/hub.go:20 | element 0 of `strings.Split(s, sep)`: a prefix of `s` without `sep`, and either all of `s` or followed in `s` by `sep` |
| Jid.BeforeFirstUnique | utils/hub.go:20 | those three properties determine the result: any prefix that has them is it |
| Jid.BeforeFirstWithoutSep | utils/hub.go:20 | an address with no separator is its own bare form |
| Jid.BeforeFirstOfJoin | utils/hub.go:20 | cutting `a + sep + b` gives `a` when `a` has no separator |
| Jid.BeforeFirstIdempotent | utils/hub.go:20 | taking the bare JID of a bare JID changes nothing |
| Jid.OccupantJidSplits | xmpp_muc.go:186 | `room + "/" + nick` has bare JID `room` and ends in `nick`, whatever `nick` holds, when `room` has no `/` |
| Decimal.FormatNat | xmpp_muc.go:154 | `%d` of a non-negative number is a non-empty digit string without a leading zero |
| Decimal.FormatInt | xmpp_muc.go:154 | `%d` of an int starts with `-` exactly when the number is negative |
| Decimal.ParseFormatNat | xmpp_muc.go:154 | reading the digits back gives the number |
| Decimal.ParseFormatInt | xmpp_muc.go:154 | reading `%d` output back gives the int |
| Decimal.FormatIntInjective | xmpp_muc.go:154 | distinct ints print differently |
| Hub.Client.SendString | utils/hub.go:45 | a send records its payload whether it succeeds or fails |
| Hub.Client.Close | utils/hub.go:28 | a close is recorded once |
| Hub.FiledClientsDistinct | utils/hub.go:18-22 | in a table filed by bare JID, two keys never hold the same client |
| Hub.RegisteredEntry | utils/hub.go:20-21 | the key is a `/`-free prefix of the address (the whole address if it has no `/`); it now holds the client; no other entry changes; the size grows by one exactly when the key is new |
| Hub.RegisterSameBareJidOverwrites | utils/hub.go:21 | registering two addresses with the same bare JID is the same as registering only the second |
| Hub.RegisterTwoResources | utils/hub.go:20-21 | `a@x/res1` then `a@x/res2` leaves one entry, `a@x`, holding the second client |
| Hub.XmppHub.constructor | utils/hub.go:74-78 | a new hub has an empty table, so its length is 0 |
| Hub.XmppHub.Register | utils/hub.go:18-23 | the table becomes the old one with the client filed under its bare JID; the invariant is kept and no client is closed |
| Hub.XmppHub.Unregister | utils/hub.go:26-31 | the client under the key is closed exactly once, its send record untouched, the key removed, the length one less, the other entries unchanged |
| Hub.XmppHub.Len | utils/hub.go:34-38 | the number of keys in the table |
| Hub.XmppHub.SendBroadcast | utils/hub.go:41-52 | every registered client gets the payload exactly once, failures included; the table and every client's close count are unchanged |
| Hub.XmppHub.Range | utils/hub.go:55-63 | visits distinct keys of the table; the callback returns true on every visit but the last; either the last call returned false or every key was visited |
| Hub.XmppHub.Get | utils/hub.go:66-71 | found exactly when the key is present, with the stored client; nil and not-found otherwise; the table is unchanged |
| Muc.JoinMucNoHistory | xmpp_muc.go:49-61 | the presence goes to the room under the given or defaulted nickname, with no password and `maxchars='0'` |
| Muc.JoinMuc | xmpp_muc.go:64-108 | succeeds exactly for types 0 to 3, or type 4 with a date; otherwise fails with "Unknown history option"; no password; no history element exactly for type 0 |
| Muc.JoinProtectedMuc | xmpp_muc.go:111-155 | succeeds for the same types as JoinMUC and always carries the password; the error text ends in the decimal type |
| Muc.JoinMucSelectsEveryHistory | xmpp_muc.go:68-106 | encoding any history option as a type, count and date and joining with them yields exactly that option |
| Muc.JoinMucHistoryMatchesArguments | xmpp_muc.go:68-106 | a granted join's history element has the requested type and carries `history` (types 1 to 3) or the date (type 4) |
| Muc.JoinProtectedMucExtendsJoinMuc | xmpp_muc.go:115-153 | JoinProtectedMUC fails exactly when JoinMUC does and otherwise gives JoinMUC's request plus the password |
| Muc.JoinProtectedMucErrorNamesType | xmpp_muc.go:154 | two rejections with the same error text rejected the same history type |
| Muc.JoinMucNoHistoryIsZeroChars | xmpp_muc.go:49-75 | JoinMUCNoHistory equals JoinMUC with CharHistory and 0, and differs from JoinMUC with NoHistory |
| Muc.JoinAddressedToOccupant | xmpp_muc.go:70-75 | a join's recipient has the room as bare JID and the nickname after the `/` |
| Muc.DefaultNickIsLocalPart | xmpp_muc.go:65-67 | with an empty nickname the join uses the client JID up to its first `@`, which has no `@` |
| Muc.LeaveMuc | xmpp_muc.go:158-163 | an unavailable presence from the client to the room |
| Muc.ChangeNick | xmpp_muc.go:183-189 | a presence from the client with no type, to the room, then `/`, then the nickname, unescaped |
| Muc.ChangeNickStaysInRoom | xmpp_muc.go:186 | the new address's bare JID is the room when the room has no `/` |
| Muc.SetRoomAffiliation | xmpp_muc.go:165-177 | a request from the client to the room that sets `jid`'s affiliation, with the reason |
| Muc.Ban | xmpp_muc.go:179-181 | exactly SetRoomAffiliation with `outcast` |
| Muc.SetRoomRole | xmpp_muc.go:287-299 | a request from the client to the room that sets `nick`'s role, with the reason |
| Muc.Kick | xmpp_muc.go:256-268 | as written: role `none` for the nickname, always sent to `harfleur@chat.shakespeare.lit` |
| Muc.KickMissesRoom | xmpp_muc.go:258 | kicking from `coven@chat.shakespeare.lit` sends the request elsewhere |
| Muc.KickFromRoom | xmpp_muc.go:256-268 | as intended: role `none` for the nickname, sent to the given room |
| Muc.KickFromRoomIsRoleNone | xmpp_muc.go:256-268 | the intended kick is SetRoomRole with role `none`, apart from the request id |

## Findings

| source | as written | input that shows it | evidently intended | confidence | as-written member | corrected member |
|---|---|---|---|---|---|---|
| xmpp_muc.go:256-268 | `Kick` ignores `room` and always sends to `harfleur@chat.shakespeare.lit`, the example room of section 8.2 of XEP-0045 | `Kick(room = "coven@chat.shakespeare.lit", ...)` is addressed to `harfleur@chat.shakespeare.lit` | send to `room`, like `SetRoomRole` with role `none` | high; not executed | Muc.Kick, Muc.KickMissesRoom | Muc.KickFromRoom, Muc.KickFromRoomIsRoleNone |

## Left out

- The `sync.Mutex` around every hub operation is left out. Each operation is one atomic step, and concurrent callers are not modelled.
- `log.Println` of a failed broadcast send is left out. The send outcome is returned by `Client.SendString` and ignored, as the source ignores it apart from logging.
- `Client.SendString`, `Client.Close` and `Client.JID` are not shown in the source. They are modelled as recording methods on `Hub.Client` and a `jid` constant. The byte count `SendString` returns is not modelled.
- Hub.XmppHub.Range: the callback is a pure function of the key and the client, so effects it has in Go are not modelled. The `visited` result exists only to state which entries were visited; the Go method returns nothing.
- The room functions return the stanza they would send, or the error. The `(n, err)` that `SendString`, `SendPresence` and `SendIQ` give back is not modelled.
- `xmlEscape` and `time.Time.Format(time.RFC3339)` are not shown in the source. The requests keep the raw strings and the `Time` value, and rendering is left to the sender. The exact `Sprintf` layout (whitespace, and the stray `"` in the `JoinMUCNoHistory` template) is not modelled.
- `SendTopic`, `DirectInvite`, `DiscoverReservedNick`, `GetRoomConfig`, `GetRoomMembers` and `RequestRoomVoice` in xmpp_muc.go are fixed templates with no branch. They are not modelled. `ConfigureRoom` and `Invite` return nil and do nothing.
- The stanza decoder (`Recv`, `Message`, `XMLElement`) is not part of this model, because its source is not available. Only its test is.
- discovery.go, xmpp_roster.go and blocking.go are fixed request templates, xmpp_ibb.go declares structs, and xmpp_test.go is a fake connection. None of them is modelled.
