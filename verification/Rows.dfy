/** Broker rows as ingestion sees them: one immutable record per transaction, with the
    linkage columns that reconcile and replay write kept beside it (modules Routing and Books). */
module Rows {

  datatype Option<+T> = None | Some(value: T) {
    function GetOr(default: T): T {
      if Some? then value else default
    }
  }

  // Names are opaque; only equality and a fixed total order on them are used.
  type AccountId = nat
  type SecurityId = nat

  // Microseconds since the earliest instant the source can represent.
  type Time = nat

  const SECOND: nat := 1_000_000
  const DAY: nat := 86_400 * SECOND

  function DayOf(t: Time): nat {
    t / DAY
  }

  // A contract that expired on a day is settled at 21:15 that day.
  const LAPSE_TIME: nat := (21 * 3_600 + 15 * 60) * SECOND

  function LapseAt(expiry: nat): Time {
    expiry * DAY + LAPSE_TIME
  }

  /** Broker transactions carry the broker's id; synthesized settlements carry an id built
      from the account, the group and the security they settle. */
  datatype TxnId = Broker(number: nat) | Lapse(account: AccountId, group: nat, security: SecurityId)

  datatype Kind = MoneyMovement | ReceiveDeliver | OtherKind

  datatype SubType =
    | Expiration
    | Assignment
    | CashSettledAssignment
    | Exercise
    | CashSettledExercise
    | OtherSubType

  /** The action text, up to what the source asks of it: equality with one of the six trade
      verbs, emptiness, and the prefix and suffix tests. NoAction is both null and empty. */
  datatype Action =
    | NoAction
    | BuyToOpen
    | SellToOpen
    | BuyToClose
    | SellToClose
    | Buy
    | Sell
    | Unlisted(sells: bool, endsToOpen: bool, endsToClose: bool)

  // strip().lower().startswith("sell")
  predicate Sells(a: Action) {
    a.SellToOpen? || a.SellToClose? || a.Sell? || (a.Unlisted? && a.sells)
  }

  // strip().endswith("to Open")
  predicate EndsToOpen(a: Action) {
    a.BuyToOpen? || a.SellToOpen? || (a.Unlisted? && a.endsToOpen)
  }

  // strip().endswith("to Close")
  predicate EndsToClose(a: Action) {
    a.BuyToClose? || a.SellToClose? || (a.Unlisted? && a.endsToClose)
  }

  predicate IsBare(a: Action) {
    a.Buy? || a.Sell?
  }

  predicate IsOpeningVerb(a: Action) {
    a.BuyToOpen? || a.SellToOpen?
  }

  predicate IsClosingVerb(a: Action) {
    a.BuyToClose? || a.SellToClose?
  }

  datatype Row = Row(
    id: TxnId,
    account: AccountId,
    kind: Kind,
    subType: SubType,
    action: Action,
    security: Option<SecurityId>,
    quantity: Option<real>,
    price: Option<real>,
    netValue: Option<real>,
    debit: bool,                 // net_value_effect == "Debit"
    commission: Option<real>,
    clearingFees: Option<real>,
    regulatoryFees: Option<real>,
    indexOptionFees: Option<real>,
    at: Option<Time>,
    orderId: Option<nat>)

  // A Receive Deliver row that terminates a lot without a trade.
  predicate IsSettlement(r: Row) {
    r.kind.ReceiveDeliver? && !r.subType.OtherSubType?
  }

  function FeesOf(r: Row): real {
    r.commission.GetOr(0.0) + r.clearingFees.GetOr(0.0) + r.regulatoryFees.GetOr(0.0) + r.indexOptionFees.GetOr(0.0)
  }

  // net_value with its effect applied: only an explicit Debit negates.
  function SignedNet(r: Row): real {
    if r.debit then -r.netValue.GetOr(0.0) else r.netValue.GetOr(0.0)
  }

  function SignedGross(r: Row): real {
    SignedNet(r) + FeesOf(r)
  }

  function Abs(x: real): (a: real) {
    if x < 0.0 then -x else x
  }

  function Min(x: real, y: real): real {
    if x <= y then x else y
  }

  function Max(x: real, y: real): real {
    if x >= y then x else y
  }

  // Does a and b lie strictly on opposite sides of zero (a * b < 0).
  predicate Opposite(a: real, b: real) {
    (a > 0.0 && b < 0.0) || (a < 0.0 && b > 0.0)
  }

  // a * b > 0
  predicate SameSide(a: real, b: real) {
    (a > 0.0 && b > 0.0) || (a < 0.0 && b < 0.0)
  }

  function Ids(rows: seq<Row>): set<TxnId> {
    set r | r in rows :: r.id
  }

  predicate DistinctIds(rows: seq<Row>) {
    forall i, j :: 0 <= i < j < |rows| ==> rows[i].id != rows[j].id
  }
}
