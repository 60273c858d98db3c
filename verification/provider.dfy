/** The provider-database vocabulary the configuration code consumes:
    protocols, socket security modes and offline provider records.
    The provider database itself (its contents and lookup) is not part of
    this model; a lookup result is an input wherever it is needed. */
module Provider {

  /** Rust `u16`. */
  type U16 = x: int | 0 <= x < 0x1_0000

  datatype Protocol = IMAP | SMTP

  /** Socket security; `Automatic` means "unknown, to be guessed". */
  datatype Socket = Automatic | SSL | STARTTLS | Plain

  /** How a provider derives the login name from the e-mail address. */
  datatype UsernamePattern = Email | EmailLocalPart

  datatype Status = Ok | Preparation | Broken

  /** One server entry of a provider record. */
  datatype Server = Server(
    protocol: Protocol,
    socket: Socket,
    hostname: string,
    port: U16,
    usernamePattern: UsernamePattern)

  /** The parts of a provider record that autoconfiguration reads. */
  datatype ProviderInfo = ProviderInfo(status: Status, server: seq<Server>)
}
