/**
 * Addresses, stanza kinds and packets as the session manager hands them to
 * mod_status (sm/mod_status.c). Only the parts of a packet the module looks
 * at are kept: its kind, its XML `type` attribute, its addresses and the text
 * of its first `<show>` child.
 */
module Packets {

  datatype Option<T> = None | Some(value: T)

  /** A Jabber ID `node@domain/resource`; an absent part is the empty string. */
  datatype Jid = Jid(node: string, domain: string, resource: string)

  /** `jid_user`: the bare address of a user, with the resource dropped. */
  function Bare(j: Jid): Jid
  {
    Jid(j.node, j.domain, "")
  }

  /**
   * `pkt->type`, a bit set: the 0x20 bit marks the presence family and the
   * 0x40 bit the subscription family; an error packet carries an extra bit.
   */
  type Kind = bv16

  const Presence: Kind := 0x20
  const PresenceUnavailable: Kind := 0x21
  const PresenceProbe: Kind := 0x24
  const Subscribe: Kind := 0x40
  const Subscribed: Kind := 0x41
  const Unsubscribe: Kind := 0x42

  /** `pkt->type & pkt_PRESENCE`: any member of the presence family. */
  predicate IsPresence(k: Kind)
  {
    k & Presence != 0
  }

  /** `pkt->type & pkt_S10N`: any member of the subscription family. */
  predicate IsSubscription(k: Kind)
  {
    k & Subscribe != 0
  }

  /**
   * A stanza. `kind` is what the packet layer decoded; `typeAttr` is the
   * `type` attribute of the XML element, which `nad_set_attr` may rewrite
   * without touching `kind`. `to` is absent for undirected presence;
   * `show` is the character data of the first `<show>` child, if any.
   */
  datatype Packet = Packet(
    kind: Kind,
    typeAttr: Option<string>,
    to: Option<Jid>,
    from: Jid,
    show: Option<string>)

  /** `mod_ret_t`: let later modules see the packet, or consume it. */
  datatype ModRet = Pass | Handled

  /** `pkt_create(sm, "presence", type, to, from)`: a fresh presence stanza with no children. */
  function Create(kind: Kind, typeAttr: Option<string>, to: Jid, from: Jid): Packet
  {
    Packet(kind, typeAttr, Some(to), from, None)
  }

  /** `pkt_tofrom`: the same packet with its two addresses exchanged. */
  function Tofrom(p: Packet): (q: Packet)
    requires p.to.Some?
    ensures q.to == Some(p.from) && q.from == p.to.value
    ensures q.kind == p.kind && q.typeAttr == p.typeAttr && q.show == p.show
  {
    p.(to := Some(p.from), from := p.to.value)
  }
}
