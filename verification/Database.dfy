/** One network's whole store as a value: the effect of each committed transaction on all of its
    tables together. A transaction that throws leaves everything as it was. */
module Database {
  import opened Records
  import Ledger
  import Registry
  import Tokens

  datatype Store = Store(ledger: Ledger.Ledger, registry: Registry.Registry, tokens: Tokens.TokenTable)

  datatype DatabaseError =
    | LedgerRefused(ledgerError: Ledger.LedgerError)
    | RegistryRefused(registryError: Registry.RegistryError)
    | TokensRefused(tokenError: Tokens.TokenError)
    | StartBlockMismatch

  function Created(startBlock: nat): Store {
    Store(Ledger.Empty(startBlock), Registry.EMPTY, map[])
  }

  function StoreBlock(s: Store, b: IndexedBlock): Result<Store, DatabaseError> {
    match Ledger.StoreBlock(s.ledger, b)
    case Failure(e) => Failure(LedgerRefused(e))
    case Success(ledger) =>
      match Tokens.Store(s.tokens, b.number, b.hash, b.tokenMetadata)
      case Failure(e) => Failure(TokensRefused(e))
      case Success(tokens) =>
        match Registry.Store(s.registry, b)
        case Failure(e) => Failure(RegistryRefused(e))
        case Success(registry) => Success(Store(ledger, registry, tokens))
  }

  ghost function Rewind(s: Store, ancestor: int, ancestorHash: Option<Hash>): Result<Store, DatabaseError> {
    match Ledger.Rewind(s.ledger, ancestor, ancestorHash)
    case Failure(e) => Failure(LedgerRefused(e))
    case Success(ledger) =>
      match Tokens.Rewind(s.tokens, ledger.blocks, ancestor)
      case Failure(e) => Failure(TokensRefused(e))
      case Success(tokens) =>
        Success(Store(ledger, Registry.Rewind(s.registry, s.ledger.startBlock, ancestor), tokens))
  }

  function Invalidate(s: Store, startBlock: nat): Store {
    Store(Ledger.Invalidate(s.ledger, startBlock), Registry.Invalidate(s.registry, startBlock), Tokens.Invalidate(s.tokens))
  }

  function AdvanceStart(s: Store, startBlock: nat): Store {
    if startBlock <= s.ledger.startBlock then s else Invalidate(s, startBlock)
  }

  /** Where a contract was deployed, looked up between blocks. */
  function RecordDeployment(s: Store, o: DeploymentObservation): Store {
    s.(registry := s.registry.(contracts := Registry.Observe(s.registry.contracts, o)))
  }

  /** Seeding a network that exists already, the stored start block being kept: the configured start
      has to be the stored one, and a changed manifest discards the canonical history. */
  ghost function Seed(s: Store, startBlock: nat, manifest: seq<ManifestContract>): Result<Store, DatabaseError> {
    if startBlock != s.ledger.startBlock then Failure(StartBlockMismatch)
    else
      var seeded := s.(registry := Registry.Seed(s.registry, startBlock, manifest));
      if Registry.ManifestChanged(s.registry, manifest) && s.ledger.indexedBlock.Some?
      then Success(Invalidate(seeded, startBlock))
      else Success(seeded)
  }
}
