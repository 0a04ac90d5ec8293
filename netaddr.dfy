/**
 * IP addresses as Go's netip.Addr holds them. Parsing and printing belong to
 * the Go library and are not modelled: an address carries its family and its
 * canonical text (what String() prints), and two addresses are equal exactly
 * when both agree.
 */
module NetAddr {

  datatype Family = IPv4 | IPv6

  datatype Addr = Addr(family: Family, text: string) {
    /** netip.Addr.Is4 */
    predicate Is4() {
      family == IPv4
    }
  }
}
