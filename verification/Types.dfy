/** The values the token program works with: keys, balances, its three kinds of
    account state, the cells of the account store, and its errors. */
module Types {

  const U64_MAX: nat := 0xFFFF_FFFF_FFFF_FFFF

  type u8 = x: nat | x < 0x100
  type u64 = x: nat | x <= 0xFFFF_FFFF_FFFF_FFFF
  type Positive = x: u64 | 0 < x witness 1

  /** A 32-byte key, named by the number its bytes spell, least significant byte first. */
  type Pubkey = x: nat | x < 0x1_0000000000000000_0000000000000000_0000000000000000_0000000000000000

  const SYSTEM_PROGRAM: Pubkey := 0
  const TOKEN_PROGRAM: Pubkey := 0xa900ff7e85f58c3a91375b5fed85b41cac79ebce46e1cbd993a165d7e1f6dd06
  const NATIVE_MINT: Pubkey := 0x100000000f0a098553beb1adc39c4da35c01846637f68fb8481abfe57889b06
  const RENT_SYSVAR: Pubkey := 0x8ad9dbe344fda19b08eeda587ff14a3d4cc98c21515c2c1917d5a706

  const MINT_LEN: nat := 82
  const ACCOUNT_LEN: nat := 165
  const MULTISIG_LEN: nat := 355
  const MIN_SIGNERS: nat := 1
  const MAX_SIGNERS: nat := 11

  datatype Option<+T> = None | Some(value: T) {
    function GetOr(default: T): T {
      if Some? then value else default
    }
  }

  datatype Error =
    // TokenError
    | NotRentExempt | InsufficientFunds | InvalidMint | MintMismatch | OwnerMismatch
    | FixedSupply | AlreadyInUse | InvalidNumberOfProvidedSigners | InvalidNumberOfRequiredSigners
    | NativeNotSupported | NonNativeHasBalance | InvalidInstruction | InvalidState | Overflow
    | AuthorityTypeNotSupported | MintCannotFreeze | AccountFrozen | MintDecimalsMismatch
    | NonNativeNotSupported
    // ProgramError
    | InvalidArgument | InvalidAccountData | UninitializedAccount | NotEnoughAccountKeys
    | MissingRequiredSignature | IncorrectProgramId | UnsupportedSysvar
    // The program aborted: an index or a split out of range
    | Panic

  datatype Result<+T> = Ok(value: T) | Err(error: Error) {
    predicate IsFailure() {
      Err?
    }

    function PropagateFailure<U>(): Result<U>
      requires Err?
    {
      Err(error)
    }

    function Extract(): T
      requires Ok?
    {
      value
    }
  }

  /** The monadic check: `:- Need(c, e)` stops with error e unless c holds. */
  function Need(condition: bool, error: Error): Result<()> {
    if condition then Ok(()) else Err(error)
  }

  datatype AccountState = Uninitialized | Initialized | Frozen

  datatype Mint = Mint(
    mintAuthority: Option<Pubkey>,
    supply: u64,
    decimals: u8,
    isInitialized: bool,
    freezeAuthority: Option<Pubkey>)

  datatype Account = Account(
    mint: Pubkey,
    owner: Pubkey,
    amount: u64,
    delegate: Option<Pubkey>,
    state: AccountState,
    isNative: Option<u64>,
    delegatedAmount: u64,
    closeAuthority: Option<Pubkey>)
  {
    /** The key that may close the account or replace its close authority. */
    function Closer(): Pubkey {
      closeAuthority.GetOr(owner)
    }
  }

  type SignerKeys = s: seq<Pubkey> | |s| == 11 witness [0, 0, 0, 0, 0, 0, 0, 0, 0, 0, 0]

  datatype Multisig = Multisig(m: u8, n: u8, isInitialized: bool, signers: SignerKeys)

  const ZERO_MINT := Mint(None, 0, 0, false, None)
  const ZERO_ACCOUNT := Account(0, 0, 0, None, Uninitialized, None, 0, None)
  const ZERO_MULTISIG := Multisig(0, 0, false, [0, 0, 0, 0, 0, 0, 0, 0, 0, 0, 0])

  /** What an account's bytes decode to. The three lengths act as type tags, so a
      buffer of another length, or one that does not decode, is only a length. */
  datatype Data =
    | MintData(mint: Mint)
    | AccountData(account: Account)
    | MultisigData(multisig: Multisig)
    | Raw(len: nat)
  {
    function Len(): nat {
      match this
      case MintData(_) => MINT_LEN
      case AccountData(_) => ACCOUNT_LEN
      case MultisigData(_) => MULTISIG_LEN
      case Raw(len) => len
    }

    /** The value of an all-zero buffer, where the buffer has one of the three lengths. */
    predicate Zeroed() {
      match this
      case MintData(m) => m == ZERO_MINT
      case AccountData(a) => a == ZERO_ACCOUNT
      case MultisigData(ms) => ms == ZERO_MULTISIG
      case Raw(_) => true
    }
  }

  datatype Cell = Cell(owner: Pubkey, lamports: u64, data: Data)

  const EMPTY_CELL := Cell(SYSTEM_PROGRAM, 0, Raw(0))

  /** Accounts by key. A key outside the map stands for an empty, system-owned account. */
  type Store = map<Pubkey, Cell>

  /** One entry of an instruction's account list. Equal keys alias the same cell. */
  datatype Meta = Meta(key: Pubkey, isSigner: bool)

  /** The rent schedule in force: the least rent-exempt balance by data length. */
  datatype Rent = Rent(minimumBalance: nat -> Positive)

  /** What the sysvar account and the syscall yield; None when the read fails. */
  datatype Sysvars = Sysvars(rentAccount: Option<Rent>, rentSyscall: Option<Rent>)

  datatype AuthorityType = MintTokens | FreezeAccounts | AccountOwner | CloseAccounts

  datatype Instruction =
    | InitializeMint(decimals: u8, mintAuthority: Pubkey, freezeAuthority: Option<Pubkey>)
    | InitializeAccount
    | InitializeMultisig(m: u8)
    | Transfer(amount: u64)
    | Approve(amount: u64)
    | Revoke
    | SetAuthority(authorityType: AuthorityType, newAuthority: Option<Pubkey>)
    | MintTo(amount: u64)
    | Burn(amount: u64)
    | CloseAccount
    | FreezeAccount
    | ThawAccount
    | TransferChecked(amount: u64, decimals: u8)
    | ApproveChecked(amount: u64, decimals: u8)
    | MintToChecked(amount: u64, decimals: u8)
    | BurnChecked(amount: u64, decimals: u8)
    | InitializeAccount2(owner: Pubkey)
    | SyncNative
    | InitializeAccount3(owner: Pubkey)
    | InitializeMultisig2(m: u8)
    | InitializeMint2(decimals: u8, mintAuthority: Pubkey, freezeAuthority: Option<Pubkey>)
}
