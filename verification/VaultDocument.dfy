/** The document of the token vault: at most one record for a provider and account. */
module VaultDocument {
  const RECORD_LIMIT := 64

  datatype Provider = Google | Microsoft
  datatype Key = Key(provider: Provider, account: string)

  /** Tokens as they are protected; times in milliseconds. */
  datatype Record = Record(access: string, refresh: string, expiresAt: int, scopes: seq<string>, generation: nat, createdAt: int, updatedAt: int)

  type Document = map<Key, Record>

  const EMPTY: Document := map[]
}
