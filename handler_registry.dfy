/** The packet-handler tables of the manager: for each packet class, the
    handlers combined into its multicast delegate, in the order they were
    added. */
module HandlerRegistry {
  import opened Wire

  /** A `Dictionary<Type, Action<...>>`: an entry exists once a handler has been
      registered for that class, and `+=` appends to its invocation list. */
  type Registry<H> = map<PacketType, seq<H>>

  /** `RegisterServerPacketHandler<T>` / `RegisterClientPacketHandler<T>` with
      `typeof(T) == t`: append to the existing entry, or add one. */
  function Register<H>(r: Registry<H>, t: PacketType, h: H): (r': Registry<H>)
    ensures r'.Keys == r.Keys + {t}
    ensures r'[t] == (if t in r then r[t] else []) + [h]
    ensures forall u | u in r && u != t :: r'[u] == r[u]
  {
    if t in r then r[t := r[t] + [h]] else r[t := [h]]
  }

  /** The handlers `ServerPacketReceived` / `ClientPacketReceived` invoke, in
      order: those of the entry for the packet's exact runtime class, none when
      there is no entry. A delegate that has handlers is never null. */
  function Dispatch<H>(r: Registry<H>, p: Packet): (hs: seq<H>)
    ensures TypeOf(p) !in r ==> hs == []
    ensures forall h | h in hs :: TypeOf(p) in r && h in r[TypeOf(p)]
  {
    if TypeOf(p) in r then r[TypeOf(p)] else []
  }

  /** Registering a handler adds it, last, to the packets of that class only. */
  lemma DispatchAfterRegister<H>(r: Registry<H>, t: PacketType, h: H, p: Packet)
    ensures Dispatch(Register(r, t, h), p) == Dispatch(r, p) + if TypeOf(p) == t then [h] else []
  {
  }

  /** `hs` registered for `t` one after another. */
  function RegisterAll<H>(r: Registry<H>, t: PacketType, hs: seq<H>): Registry<H>
    decreases |hs|
  {
    if hs == [] then r else RegisterAll(Register(r, t, hs[0]), t, hs[1..])
  }

  /** A packet of class `t` reaches the handlers registered for `t`, in
      registration order, after those it reached before; other packets reach
      what they reached before. */
  lemma {:induction false} DispatchAfterRegisterAll<H>(r: Registry<H>, t: PacketType, hs: seq<H>, p: Packet)
    ensures Dispatch(RegisterAll(r, t, hs), p) == Dispatch(r, p) + if TypeOf(p) == t then hs else []
    decreases |hs|
  {
    if hs != [] {
      DispatchAfterRegister(r, t, hs[0], p);
      DispatchAfterRegisterAll(Register(r, t, hs[0]), t, hs[1..], p);
      if TypeOf(p) == t {
        assert Dispatch(r, p) + [hs[0]] + hs[1..] == Dispatch(r, p) + hs;
      } else {
        assert Dispatch(r, p) + [] == Dispatch(r, p);
      }
    } else {
      assert Dispatch(r, p) + [] == Dispatch(r, p);
    }
  }
}
