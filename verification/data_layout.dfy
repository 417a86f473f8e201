/** The record stored in the ledger, and the fixed-width integer types it is built from. */
module DataLayout {

  type u8 = x: int | 0 <= x < 0x100
  type u16 = x: int | 0 <= x < 0x1_0000

  const U64_MAX: int := 0xFFFF_FFFF_FFFF_FFFF
  type u64 = x: int | 0 <= x <= U64_MAX

  /** Public keys are 32-byte Ed25519 keys. */
  const PUBLIC_KEY_LENGTH: nat := 32
  type PublicKey = k: seq<u8> | |k| == PUBLIC_KEY_LENGTH witness seq(PUBLIC_KEY_LENGTH, _ => 0)

  /** An IPv4 address, as its four octets. */
  datatype Ipv4Addr = Ipv4Addr(a: u8, b: u8, c: u8, d: u8)

  /** The unspecified address 0.0.0.0: the address a user gets when none is supplied. */
  const UNSPECIFIED_ADDRESS: Ipv4Addr := Ipv4Addr(0, 0, 0, 0)

  /**
   * A registered user. The record has no setters: every change builds a new
   * record from fields. The address is not constrained by key, name or balance.
   */
  datatype User = User(publicKey: PublicKey, name: string, balance: u64, userAddress: Ipv4Addr)

  /**
   * Reading a constructed record back returns exactly the fields it was built
   * from. Dafny guarantees this of every datatype; it is stated here because the
   * generated `User` accessors promise it.
   */
  lemma UserAccessors(publicKey: PublicKey, name: string, balance: u64, userAddress: Ipv4Addr)
    ensures User(publicKey, name, balance, userAddress).publicKey == publicKey
    ensures User(publicKey, name, balance, userAddress).name == name
    ensures User(publicKey, name, balance, userAddress).balance == balance
    ensures User(publicKey, name, balance, userAddress).userAddress == userAddress
  {
  }

  /**
   * A record is determined by its four fields, so a change is a new record;
   * the balance lies in the u64 range. Both follow from the datatype and the
   * `u64` type alone; they restate what the generated `User` guarantees.
   */
  lemma UserIsItsFields(u: User)
    ensures User(u.publicKey, u.name, u.balance, u.userAddress) == u
    ensures 0 <= u.balance <= U64_MAX
  {
  }
}
