/**
 * The mod_status module instance (sm/mod_status.c): the record store it
 * shares with the rest of the session manager, the packets it routes, and
 * the resource it answers on. Each callback is a method that reads the
 * store, overwrites or deletes one record and routes packets, step by step
 * as the C code does; each is proved to take the step `StatusSpec.Step`
 * describes for its event.
 */
module ModStatus {

  import opened Packets
  import opened Records
  import opened StatusSpec

  class Status {
    /** The "status" collection of the storage layer. */
    var store: Store
    /** Every packet handed to `pkt_router`, oldest first. */
    var outbox: seq<Packet>
    /** The `status.resource` option read by `module_init`; None when unset. */
    const resource: Option<string>

    /** `module_init`: the configured resource, over the store as it already is. */
    constructor (resource: Option<string>, store: Store)
      ensures this.resource == resource && this.store == store && outbox == []
    {
      this.resource := resource;
      this.store := store;
      outbox := [];
    }

    /** `_status_os_replace`: overwrite the user's whole record. */
    method Replace(u: Jid, status: string, show: string, lastLogin: int, lastLogout: int)
      modifies this`store
      ensures store == old(store)[u := Record(status, show, lastLogin, lastLogout)]
    {
      store := store[u := Record(status, show, lastLogin, lastLogout)];
    }

    /** `pkt_router`: hand one packet to the router. */
    method Route(q: Packet)
      modifies this`outbox
      ensures outbox == old(outbox) + [q]
    {
      outbox := outbox + [q];
    }

    /** `_status_store`: record the show of a presence packet, status "online", with the given timestamps. */
    method StorePresence(u: Jid, p: Packet, lastLogin: int, lastLogout: int)
      modifies this`store
      ensures store == old(store)[u := StoredRecord(p, lastLogin, lastLogout)]
      ensures store[u].status == "online" && |store[u].show| <= MaxShow
    {
      var show := ShowOf(p);
      Replace(u, "online", show, lastLogin, lastLogout);
    }

    /** `_status_sess_start`: stamp the login time, keep the last logout, never block the session. */
    method SessStart(jid: Jid, now: int) returns (r: ModRet)
      modifies this`store
      ensures r == Pass
      ensures Bare(jid) in store
      ensures store[Bare(jid)] == Record("online", "", now, PriorLogout(old(store), Bare(jid)))
      ensures forall u :: u != Bare(jid) ==> (u in store <==> u in old(store))
      ensures forall u :: u != Bare(jid) && u in old(store) ==> store[u] == old(store)[u]
      ensures State(store, outbox) == Step(resource, old(State(store, outbox)), SessionStarted(jid, now))
    {
      var u := Bare(jid);
      var lastLogout: int;
      if u in store {
        lastLogout := store[u].lastLogout;
      } else {
        lastLogout := 0;
      }
      var t := now;
      Replace(u, "online", "", t, lastLogout);
      r := Pass;
    }

    /** `_status_sess_end`: stamp the logout time, keep the last login. */
    method SessEnd(jid: Jid, now: int)
      modifies this`store
      ensures Bare(jid) in store
      ensures store[Bare(jid)] == Record("offline", "", PriorLogin(old(store), Bare(jid)), now)
      ensures forall u :: u != Bare(jid) ==> (u in store <==> u in old(store))
      ensures forall u :: u != Bare(jid) && u in old(store) ==> store[u] == old(store)[u]
      ensures State(store, outbox) == Step(resource, old(State(store, outbox)), SessionEnded(jid, now))
    {
      var u := Bare(jid);
      var lastLogin: int;
      if u in store {
        lastLogin := store[u].lastLogin;
      } else {
        lastLogin := 0;
      }
      var t := now;
      Replace(u, "offline", "", lastLogin, t);
    }

    /** `_status_user_delete`: drop the user's record and no other. */
    method UserDelete(jid: Jid)
      modifies this`store
      ensures Bare(jid) !in store
      ensures forall u :: u != Bare(jid) ==> (u in store <==> u in old(store))
      ensures forall u :: u != Bare(jid) && u in old(store) ==> store[u] == old(store)[u]
      ensures State(store, outbox) == Step(resource, old(State(store, outbox)), UserDeleted(jid))
    {
      store := store - {Bare(jid)};
    }

    /**
     * `_status_in_sess`: an undirected presence stanza from the user's own
     * session records its show, keeping both timestamps; anything else is
     * left alone. The stanza always continues to later modules.
     */
    method InSess(jid: Jid, p: Packet) returns (r: ModRet)
      modifies this`store
      ensures r == Pass
      ensures !IsPresence(p.kind) ==> store == old(store)
      ensures IsPresence(p.kind) && p.to.Some? ==> store == old(store)
      ensures IsPresence(p.kind) && p.to.None? ==>
                store == old(store)[Bare(jid) := Record("online", ShowOf(p),
                  PriorLogin(old(store), Bare(jid)), PriorLogout(old(store), Bare(jid)))]
      ensures State(store, outbox) == Step(resource, old(State(store, outbox)), PresenceInSession(jid, p))
    {
      if !IsPresence(p.kind) {
        return Pass;
      }
      var u := Bare(jid);
      var lastLogin: int, lastLogout: int;
      if u in store {
        lastLogin := store[u].lastLogin;
        lastLogout := store[u].lastLogout;
      } else {
        lastLogin := 0;
        lastLogout := 0;
      }
      if p.to.None? {
        StorePresence(u, p, lastLogin, lastLogout);
      }
      return Pass;
    }

    /**
     * `_status_pkt_sm`: a presence or subscription stanza addressed to the
     * configured resource is answered on the user's behalf and consumed;
     * every other stanza passes through untouched.
     */
    method PktSm(p: Packet) returns (r: ModRet)
      requires Watched(resource, p) ==> p.to.Some?
      modifies this
      ensures r == PktSmRet(resource, p)
      ensures r == Handled <==> Intercepts(resource, p)
      ensures !Intercepts(resource, p) ==> store == old(store) && outbox == old(outbox)
      ensures Intercepts(resource, p) && p.kind == Subscribe ==>
                && store == old(store)
                && outbox == old(outbox) + [
                     Create(Subscribed, Some("subscribed"), Bare(p.from), p.to.value),
                     Create(Presence, None, Bare(p.from), p.to.value),
                     Tofrom(p)]
      ensures Intercepts(resource, p) && p.kind == Unsubscribe ==>
                && store == old(store)
                && outbox == old(outbox) + [Tofrom(p.(typeAttr := Some("unsubscribed")))]
      ensures Intercepts(resource, p) && p.kind == PresenceProbe ==>
                && store == old(store)
                && outbox == old(outbox) + [Create(Presence, None, Bare(p.from), p.to.value)]
      ensures Intercepts(resource, p) && StoresRemote(p) ==>
                && store == old(store)[Bare(p.from) := Record("online", ShowOf(p), 0, 0)]
                && outbox == old(outbox)
      ensures Intercepts(resource, p) && !StoresRemote(p)
                && p.kind !in {Subscribe, Unsubscribe, PresenceProbe} ==>
                store == old(store) && outbox == old(outbox)
      ensures State(store, outbox) == Step(resource, old(State(store, outbox)), PacketToSm(p))
    {
      if !(IsPresence(p.kind) || IsSubscription(p.kind)) || resource.None?
         || p.to.value.resource != resource.value {
        return Pass;
      }
      var to := p.to.value;

      if p.kind == Subscribe {
        Route(Create(Subscribed, Some("subscribed"), Bare(p.from), to));
        Route(Create(Presence, None, Bare(p.from), to));
        Route(Tofrom(p));
        return Handled;
      }

      if p.kind == Unsubscribe {
        var ack := p.(typeAttr := Some("unsubscribed"));
        Route(Tofrom(ack));
        return Handled;
      }

      if p.kind == PresenceProbe {
        Route(Create(Presence, None, Bare(p.from), to));
        return Handled;
      }

      if p.kind == Presence || p.kind == PresenceUnavailable {
        var t := 0;
        StorePresence(Bare(p.from), p, t, t);
        return Handled;
      }

      return Handled;
    }
  }
}
