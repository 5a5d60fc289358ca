/** Client addresses and the ordering that keys the address-to-tank table.
    Only the two fields the comparator reads are modelled. */
module SockAddrs {

  newtype U32 = x: int | 0 <= x < 0x1_0000_0000
  newtype U16 = x: int | 0 <= x < 0x1_0000

  datatype SockAddr = SockAddr(sAddr: U32, port: U16)

  /** The comparator: by address first, then by port. */
  predicate Less(a: SockAddr, b: SockAddr) {
    if a.sAddr == b.sAddr then a.port < b.port else a.sAddr < b.sAddr
  }

  /** The table treats two addresses as the same key when neither orders
      before the other. */
  predicate SameKey(a: SockAddr, b: SockAddr) {
    !Less(a, b) && !Less(b, a)
  }

  lemma LessIsLexicographic(a: SockAddr, b: SockAddr)
    ensures Less(a, b) <==> a.sAddr < b.sAddr || (a.sAddr == b.sAddr && a.port < b.port)
  {
  }

  lemma LessIrreflexive(a: SockAddr)
    ensures !Less(a, a)
  {
  }

  lemma LessAsymmetric(a: SockAddr, b: SockAddr)
    ensures Less(a, b) ==> !Less(b, a)
  {
  }

  lemma LessTransitive(a: SockAddr, b: SockAddr, c: SockAddr)
    requires Less(a, b) && Less(b, c)
    ensures Less(a, c)
  {
  }

  /** Any two addresses are ordered one way or the other unless both fields
      agree. */
  lemma LessConnected(a: SockAddr, b: SockAddr)
    ensures a != b ==> Less(a, b) || Less(b, a)
  {
  }

  /** Two addresses share a table entry exactly when address and port both
      agree, which is equality of the modelled value, so the table can be a
      map keyed by SockAddr. */
  lemma SameKeyIffEqual(a: SockAddr, b: SockAddr)
    ensures SameKey(a, b) <==> a.sAddr == b.sAddr && a.port == b.port
    ensures SameKey(a, b) <==> a == b
  {
  }
}
