/**
 The program's accounts as values: one market with its two sides, and the
 position of one user.  Field names follow the program's accounts; the fields
 of a side, kept twice in the program, form one `Book`.
 */
module State {
  import opened Numbers
  import opened Vamm

  const POS_SCALE: int := 1_000_000
  const ADL_ONE: int := 1_000_000
  const MIN_A_SIDE: int := 1_000
  const REWARD_PRECISION: int := 1_000_000
  const MAX_ORACLE_PRICE: int := 1_000_000_000_000
  const MAX_ACCOUNT_POSITIVE_PNL: int := 100_000_000_000_000_000_000_000_000_000_000
  const MAX_PNL_POS_TOT: int := 100_000_000_000_000_000_000_000_000_000_000_000_000
  const MAX_PROTOCOL_FEE_ABS: int := 100_000_000_000_000_000_000

  datatype Side = Long | Short {
    function Opposite(): Side {
      if this == Long then Short else Long
    }
  }

  datatype Mode = Normal | DrainOnly | ResetPending

  /** One side of the market. */
  datatype Book = Book(
    a: u128,            // size index: effective size = |basis| * a / a_snapshot
    k: i128,            // PnL index
    epoch: u64,
    epochStartK: i128,  // k at the last epoch change
    mode: Mode,
    oi: u128,           // effective open interest
    stored: u64,        // accounts with a nonzero basis
    stale: u64,         // those of them left over from an earlier epoch
    dust: u128,         // bound on open interest that no account owns
    pending: bool,      // a reset is due at the end of the instruction
    total: u128,        // raw open interest
    acc: u128)          // liquidation reward per unit of raw open interest

  /** A side nobody has traded on. */
  const EMPTY_BOOK := Book(ADL_ONE, 0, 0, 0, Normal, 0, 0, 0, 0, false, 0, 0)

  datatype Funds = Funds(
    vault: u128,
    cTot: u128,
    pnlPos: u128,
    matured: u128,
    insurance: u64,
    insuranceFloor: u128,
    epochPayout: u64,
    epochStart: i64,
    creatorFees: u64,
    protocolFees: u64)

  datatype Feed = Feed(currentSlot: u64, lastMarketSlot: u64, lastPrice: u64, rate: i64, sample: u64)

  datatype Twap = Twap(accumulator: u128, volume: u128, count: u32, lastMark: u64, lastFundingTime: i64)

  datatype Params = Params(
    tradingFeeBps: u16,
    liquidationFeeBps: u16,
    maintenanceBps: u16,
    maxLeverage: u32,
    warmupPeriod: u64,
    fundingPeriod: u32,
    fundingCapBps: u16,
    maxPosition: u128,
    maxOi: u128)

  /** History variables, not stored by the program: reward tokens credited to and distributed to each side. */
  datatype History = History(paidLong: nat, paidShort: nat, distributedLong: nat, distributedShort: nat) {
    function Paid(side: Side): nat {
      if side == Long then paidLong else paidShort
    }

    function Distributed(side: Side): nat {
      if side == Long then distributedLong else distributedShort
    }

    function AddPaid(side: Side, amount: nat): History {
      if side == Long then this.(paidLong := paidLong + amount) else this.(paidShort := paidShort + amount)
    }

    function AddDistributed(side: Side, amount: nat): History {
      if side == Long then this.(distributedLong := distributedLong + amount)
      else this.(distributedShort := distributedShort + amount)
    }
  }

  datatype MarketV = MarketV(
    long: Book, short: Book, amm: Amm, funds: Funds, feed: Feed, twap: Twap, params: Params, history: History) {
    function Side(side: Side): Book {
      if side == Long then long else short
    }

    function With(side: Side, book: Book): MarketV {
      if side == Long then this.(long := book) else this.(short := book)
    }
  }

  datatype PositionV = PositionV(
    collateral: u64,
    baseSize: i64,
    quoteEntry: u128,
    pegAtEntry: u128,
    pnl: i128,
    reserved: u128,
    warmupStart: u64,
    warmupSlope: u128,
    basis: i128,
    aSnap: u128,
    kSnap: i128,
    epochSnap: u64,
    feeCredits: i128,
    lastActivity: u64,
    rewardSnap: u128,
    rewardsClaimed: u64)

  /** What one instruction works on: the market and the position it was given. */
  datatype Pair = Pair(p: PositionV, m: MarketV)

  function SideOf(x: int): Side {
    if x > 0 then Long else Short
  }

  function PosPart(x: int): nat {
    if x > 0 then x else 0
  }

  /** A newly initialised position. */
  function FreshPosition(slot: u64): PositionV {
    PositionV(0, 0, 0, 0, 0, 0, 0, 0, 0, ADL_ONE, 0, 0, 0, slot, 0, 0)
  }
}
