/**
 * The per-user status record of mod_status and the show extraction of
 * `_status_store` (sm/mod_status.c:111-141).
 */
module Records {

  import opened Packets

  /** One row of the "status" collection: the fields `_status_os_replace` writes. */
  datatype Record = Record(status: string, show: string, lastLogin: int, lastLogout: int)

  /** The "status" collection, keyed by bare user address. */
  type Store = map<Jid, Record>

  /** Longest `<show>` text that is copied into a record. */
  const MaxShow := 19

  /** Last-login of the user's record; 0 when the user has no record. */
  function PriorLogin(s: Store, u: Jid): int
  {
    if u in s then s[u].lastLogin else 0
  }

  /** Last-logout of the user's record; 0 when the user has no record. */
  function PriorLogout(s: Store, u: Jid): int
  {
    if u in s then s[u].lastLogout else 0
  }

  /**
   * The show value `_status_store` records for a presence packet: the marker
   * "unavailable" for unavailable presence, otherwise the `<show>` text when
   * it has 1 to 19 characters, and the empty string in every other case.
   */
  function ShowOf(p: Packet): (show: string)
    ensures |show| <= MaxShow
    ensures p.kind == PresenceUnavailable ==> show == "unavailable"
    ensures p.kind != PresenceUnavailable && p.show.None? ==> show == ""
    ensures p.kind != PresenceUnavailable && p.show.Some? ==>
              show == (if 0 < |p.show.value| <= MaxShow then p.show.value else "")
  {
    if p.kind == PresenceUnavailable then "unavailable"
    else if p.show.None? then ""
    else if |p.show.value| <= 0 || |p.show.value| > MaxShow then ""
    else p.show.value
  }

  /** The record `_status_store` writes: always "online", with the given timestamps. */
  function StoredRecord(p: Packet, lastLogin: int, lastLogout: int): Record
  {
    Record("online", ShowOf(p), lastLogin, lastLogout)
  }

  /**
   * What every record written by mod_status looks like: the status is
   * "online" or "offline", an "offline" record has an empty show, and the
   * show is never longer than 19 characters.
   */
  ghost predicate ValidRecord(r: Record)
  {
    && (r.status == "online" || r.status == "offline")
    && (r.status == "offline" ==> r.show == "")
    && |r.show| <= MaxShow
  }

  ghost predicate ValidStore(s: Store)
  {
    forall u :: u in s ==> ValidRecord(s[u])
  }
}
