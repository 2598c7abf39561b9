# mod_status: status records and a virtual presence resource

A Dafny model of jabberd2's session-manager module `mod_status`
(`sm/mod_status.c`). The module keeps one status record per user —
status text, show text, last-login and last-logout time — in the
session manager's "status" storage collection, and it answers presence and
subscription stanzas that remote entities send to a configured
"virtual resource" of a local user.

The model has four modules:

- `Packets` (`packets.dfy`): Jabber IDs, the packet kind bit set, packets,
  `mod_ret_t`, and the two packet operations the module uses, `pkt_create`
  and `pkt_tofrom`.
- `Records` (`records.dfy`): the status record, the store (a map from bare
  user address to record), the show extraction of `_status_store` as a pure
  function, and the shape every written record has.
- `StatusSpec` (`status_spec.dfy`): the module as a state machine. `Step`
  gives the effect of each of the five callbacks on the store and on the
  sequence of routed packets; `Run` folds a sequence of callbacks. The
  lemmas state what holds over any sequence of callbacks.
- `ModStatus` (`mod_status.dfy`): the class `Status` with the store, the
  routed packets and the configured resource as fields, and one method per
  callback. The methods read, compute and write in the same order as the C
  handlers. Each one states its new store and outbox outright, and it also
  states that it takes exactly the `StatusSpec.Step` for its event, so the
  trace lemmas apply to any sequence of method calls.

The clock (`time(NULL)`) is a `now` parameter of the session callbacks.
The configured `status.resource` option is a constructor argument.

The model follows the code at these points, where its behaviour is easy to
misread:

- The "subscribed" reply and the "available" presence are sent from the
  full `to` address of the incoming stanza (`sm/mod_status.c:195`, `:198`),
  not from a bare address.
- `_status_store` always writes status "online", even for unavailable
  presence (`sm/mod_status.c:139`).
- A remote presence is stored with both timestamps 0, and no prior record
  is read first (`sm/mod_status.c:232-234`).
- The gate tests the presence and subscription *bits* of the packet kind
  (`sm/mod_status.c:187`). So "subscribed", "unsubscribed" and error
  variants addressed to the resource are intercepted too. They fall into
  the final branch and are consumed with no reply.
- `_status_in_sess` uses the same bit test (`sm/mod_status.c:152`). So an
  undirected probe from a session is stored like any presence.
- Every storage call is assumed to succeed (see "Left out").

## Model

| member | source | states |
|---|---|---|
| `Packets.Tofrom` | sm/mod_status.c:201-212 | the reflected packet goes to the original sender and comes from the original destination; its kind, type attribute and show are kept |
| `Records.ShowOf` | sm/mod_status.c:115-137 | unavailable presence gives "unavailable"; with no `<show>` child, or with show text of length 0 or over 19, the result is ""; otherwise the text is copied exactly; the result never exceeds 19 characters |
| `ModStatus.Status.constructor` | sm/mod_status.c:258-259 | the module starts with the configured resource (or none), the existing store, and nothing routed |
| `ModStatus.Status.Replace` | sm/mod_status.c:37-46 | a write replaces the user's whole record with exactly the four given fields and touches no other record |
| `ModStatus.Status.Route` | sm/mod_status.c:195-201 | routing appends exactly the one packet to the outbound stream |
| `ModStatus.Status.StorePresence` | sm/mod_status.c:111-141 | writes status "online", the extracted show and exactly the given timestamps under the given user |
| `ModStatus.Status.SessStart` | sm/mod_status.c:48-75 | writes ("online", "", now, prior last-logout or 0), leaves every other user's record and the outbox alone, and returns PASS |
| `ModStatus.Status.SessEnd` | sm/mod_status.c:77-102 | writes ("offline", "", prior last-login or 0, now) and leaves every other user's record and the outbox alone |
| `ModStatus.Status.UserDelete` | sm/mod_status.c:104-109 | the user's record is gone afterwards, so a later lookup finds nothing; every other record is unchanged |
| `ModStatus.Status.InSess` | sm/mod_status.c:143-177 | non-presence and directed presence leave the store unchanged; undirected presence writes ("online", extracted show, prior last-login, prior last-logout); the result is always PASS |
| `ModStatus.Status.PktSm` | sm/mod_status.c:179-246 | the result is HANDLED exactly when the gate intercepts the stanza; outside the gate (wrong kind, no resource, a different `to` resource) it returns PASS and changes nothing; subscribe routes exactly subscribed, available presence and the swapped original, in that order; unsubscribe routes the original retyped "unsubscribed" and swapped; probe routes one available presence; presence and unavailable store the extracted show under the sender's bare address with timestamps 0 and route nothing; any other gated kind changes nothing; every gated stanza returns HANDLED |
| `StatusSpec.StepKeepsValid` | sm/mod_status.c:72-139 | every callback writes only records whose status is "online" or "offline", whose "offline" show is empty and whose show has at most 19 characters |
| `StatusSpec.RunKeepsValid` | sm/mod_status.c:48-141 | the same record shape holds after any sequence of callbacks |
| `StatusSpec.StepEmitsFromResource` | sm/mod_status.c:191-226 | a callback only appends to the routed packets, and each packet it adds is sent from an address on the configured resource |
| `StatusSpec.RunEmitsOnlyFromResource` | sm/mod_status.c:186-244 | over any sequence of callbacks, routing is append only and the module only ever speaks as the virtual resource |
| `StatusSpec.NoResourceNoReplies` | sm/mod_status.c:187-188 | with no resource configured, no sequence of callbacks routes any packet |
| `StatusSpec.RunFrame` | sm/mod_status.c:56-234 | callbacks about other users leave a user's record exactly as it was, whether present or absent |
| `StatusSpec.LastLoginIsMostRecentStart` | sm/mod_status.c:56-101 | a user's last-login is the time of their most recent session start, unless a later deletion or remote presence reset the record |
| `StatusSpec.LastLogoutIsMostRecentEnd` | sm/mod_status.c:56-101 | a user's last-logout is the time of their most recent session end, unless a later deletion or remote presence reset the record |
| `StatusSpec.NeverStartedZero` | sm/mod_status.c:66-101 | a user with no record at first and no session start afterwards has last-login 0 whenever a record exists |
| `StatusSpec.NeverEndedZero` | sm/mod_status.c:56-101 | a user with no record at first and no session end afterwards has last-logout 0 whenever a record exists |
| `StatusSpec.EndThenStart` | sm/mod_status.c:85-101 | a session end at t1 followed by a session start at t2 leaves ("online", "", t2, t1) |

## Left out

- The storage engine and its object-set encoding (`os_new`, `os_object_put`, `storage_get`, `storage_replace`, `storage_delete`). The "status" collection is a map with lookup, overwrite and removal, and every storage call is assumed to succeed.
- Storage failures are not modelled. In the C code a failed `storage_replace` (`sm/mod_status.c:44`) keeps the previous record, a failed `storage_delete` (`sm/mod_status.c:108`) keeps the record, and a failed `storage_get` on an existing record yields timestamps 0 (`sm/mod_status.c:66-69`). `RunFrame`, `LastLoginIsMostRecentStart`, `LastLogoutIsMostRecentEnd`, `NeverStartedZero` and `NeverEndedZero` hold only when storage does not fail.
- A `storage_get` that succeeds but yields no object leaves the C timestamps uninitialised (`sm/mod_status.c:59-63`, `:88-92`, `:158-163`). The model treats this case as "no record", with timestamps 0, and does not reproduce undefined values.
- Timestamps are unbounded integers. The width the storage layer gives an `os_type_INTEGER` field is not part of this model.
- XML parsing (`nad_find_elem`, `NAD_CDATA`, `nad_set_attr`). A packet carries its decoded kind, its `type` attribute, its addresses and the text of its first `<show>` child. Show length is counted in characters, whereas the C code counts bytes of the UTF-8 character data.
- The packet kind values (0x20 presence, 0x21 unavailable, 0x24 probe, 0x40 subscribe, 0x41 subscribed, 0x42 unsubscribe) are taken from jabberd2's packet type enumeration. `sm/sm.h` and the packet layer (`pkt_new`, `pkt_create`, `pkt_tofrom`) are not part of this model. A created packet's kind is the one `pkt_create` would decode from its `type` attribute.
- The sender address is always present. `PktSm` requires a `to` address whenever the kind and resource tests pass, because the gate dereferences it (`sm/mod_status.c:187`).
- Memory management (`strndup`/`free`, `pkt_free`, `malloc`), `log_debug` output, and the registration of callbacks in `module_init`.
- Concurrency: each callback runs to completion. The read-modify-write race between processes sharing one store is not modelled.
