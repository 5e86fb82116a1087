/** The values the weighted round robin engine receives from the DNS library:
    addresses and answer records. Both are taken at their interface only. */
module Net {

  /** An unsigned 8-bit integer, Go's `uint8`. */
  newtype uint8 = x: int | 0 <= x < 256

  /** Sixteen octets, the form `net.ParseIP` returns for every address. */
  type Octets16 = s: seq<uint8> | |s| == 16 witness [0, 0, 0, 0, 0, 0, 0, 0, 0, 0, 0, 0, 0, 0, 0, 0]

  /** An IP address in canonical 16-byte form: an IPv4 address is held as
      its IPv4-mapped IPv6 form. `net.IP.Equal` identifies an IPv4 address
      with that form, so on canonical values it is plain equality of the
      datatype; the addresses of A and AAAA records are held in the same
      form. */
  datatype IP = IP(octets: Octets16)

  /** A resource record of an answer section. Only the type tag and, for
      address records, the decoded address matter to the engine; the other
      fields tell records with the same tag apart. */
  datatype Record =
    | CNAME(owner: string, target: string)
    | A(owner: string, a: IP)
    | AAAA(owner: string, aaaa: IP)
    | MX(owner: string, preference: nat, exchange: string)
    | Other(owner: string, rdata: string)
}
