/** Rows, requests and outcomes.  A database state is a value: one table per field, keyed by primary key
    (wallets by owner and asset, which their two unique constraints make a key). */
module Rows {
  import opened Tables

  /** A UUID is the number it encodes. */
  type Uuid = nat

  datatype Asset = Asset(id: Uuid, isActive: bool)

  datatype Owner = User(user: Uuid) | Treasury
  datatype WalletId = WalletId(owner: Owner, asset: Uuid)

  /** Both balances carry a check constraint `>= 0`. */
  datatype Wallet = Wallet(available: nat, locked: nat)

  /** Columns with a check constraint `> 0`. */
  type Positive = n: int | n > 0 witness 1

  datatype Side = Buy | Sell
  datatype OrderStatus = Open | Canceled | Filled
  datatype Order = Order(
    user: Uuid, base: Uuid, quote: Uuid, key: string, tx: Uuid,
    side: Side, status: OrderStatus, price: Positive, quantity: Positive, reserved: Positive)
  {
    /** The wallet that holds the reservation: the quote asset pays for a BUY, the base asset for a SELL. */
    function ReserveWallet(): WalletId {
      WalletId(User(user), if side == Buy then quote else base)
    }
  }

  datatype TxKind = Funding | OrderReserve | OrderRelease | Trade
  datatype TxStatus = Posted | Reversed

  /** `releases` is the order that the description of a release names. */
  datatype LedgerTx = LedgerTx(key: Option<string>, kind: TxKind, status: TxStatus, releases: Option<Uuid>)

  datatype EntryType = Debit | Credit
  datatype Bucket = Available | Locked

  /** The unique constraint of ledger_entries: a transaction numbers its entries. */
  datatype EntryId = EntryId(tx: Uuid, sequence: int)
  datatype Entry = Entry(wallet: WalletId, entryType: EntryType, bucket: Bucket, amount: Positive)

  datatype EventKind = OrderCreated | OrderCanceled
  datatype Event = Event(
    kind: EventKind, order: Uuid, createdAt: int,
    publishedAt: Option<int>, attempts: nat, lastError: Option<string>)

  datatype Db = Db(
    wallets: map<WalletId, Wallet>,
    orders: map<Uuid, Order>,
    txs: map<Uuid, LedgerTx>,
    entries: map<EntryId, Entry>,
    events: map<Uuid, Event>)

  /** What does not change during a run: the asset table by code, and the digest used for ledger keys
      (SHA-256 in hexadecimal), about which nothing is assumed. */
  datatype Config = Config(assets: map<string, Asset>, digest: string -> string)

  datatype FundRequest = FundRequest(user: Uuid, assetCode: string, amount: int, key: string)
  datatype CreateRequest = CreateRequest(
    user: Uuid, baseCode: string, quoteCode: string, side: Side, price: int, quantity: int, key: string)
  datatype CancelRequest = CancelRequest(user: Uuid, order: Uuid)

  datatype Call = FundCall(fund: FundRequest) | CreateCall(create: CreateRequest) | CancelCall(cancel: CancelRequest)

  /** The random identifiers a call draws for its rows, and the start time of its transaction. */
  datatype Draw = Draw(tx: Uuid, order: Uuid, event: Uuid, now: int)

  datatype Invocation = Invocation(call: Call, draw: Draw)

  /** IntegrityViolation stands for a unique or check constraint that the database rejects at a flush. */
  datatype Error =
    | InvalidRequest
    | AssetNotFound
    | IdempotencyConflict
    | TreasuryNotInitialized
    | InsufficientTreasury
    | InsufficientAvailable
    | OrderNotFound
    | OrderNotCancelable
    | ReservationState
    | IntegrityViolation

  /** Done: the call moved money and names the row it made (funding: the ledger transaction; create and
      cancel: the order).  Replayed: the earlier row is returned and nothing changes. */
  datatype Outcome = Done(id: Uuid) | Replayed(id: Uuid) | Refused(error: Error)

  datatype Result = Result(db: Db, outcome: Outcome)

  /** Upper case of the codes the request schema admits (letters and digits). */
  function Upper(code: string): string {
    seq(|code|, i requires 0 <= i < |code| =>
      if 'a' <= code[i] <= 'z' then (code[i] as int - 'a' as int + 'A' as int) as char else code[i])
  }

  /** `c` is `code` with every small letter made a capital and every other character kept. */
  predicate Capitals(code: string, c: string) {
    && |c| == |code|
    && forall i :: 0 <= i < |code| ==>
         if 'a' <= code[i] <= 'z' then 'A' <= c[i] <= 'Z' && c[i] - 'A' == code[i] - 'a' else c[i] == code[i]
  }

  /** Upper gives the capitals, and nothing else is the capitals. */
  lemma UpperIsCapitals(code: string, c: string)
    ensures Capitals(code, c) <==> c == Upper(code)
  {
    assert Capitals(code, Upper(code));
    if Capitals(code, c) {
      forall i | 0 <= i < |code| ensures c[i] == Upper(code)[i] {
      }
    }
  }

  /** The two codes differ at most in the case of their letters. */
  predicate SameButCase(a: string, b: string) {
    && |a| == |b|
    && forall i :: 0 <= i < |a| ==>
         || a[i] == b[i]
         || ('a' <= a[i] <= 'z' && 'A' <= b[i] <= 'Z' && b[i] - 'A' == a[i] - 'a')
         || ('a' <= b[i] <= 'z' && 'A' <= a[i] <= 'Z' && a[i] - 'A' == b[i] - 'a')
  }

  lemma CaseIgnored(a: string, b: string)
    requires SameButCase(a, b)
    ensures Upper(a) == Upper(b)
  {
    forall i | 0 <= i < |a| ensures Upper(a)[i] == Upper(b)[i] {
    }
  }

  /** The asset table holds an active asset with this id under the capitals of the code. */
  ghost predicate Active(cfg: Config, code: string, asset: Uuid) {
    exists c :: c in cfg.assets && Capitals(code, c) && cfg.assets[c] == Asset(asset, true)
  }

  lemma ActiveAssetIs(cfg: Config, code: string)
    ensures forall asset: Uuid :: ActiveAsset(cfg, code) == Some(asset) <==> Active(cfg, code, asset)
  {
    hide Upper, Capitals;
    UpperIsCapitals(code, Upper(code));
    forall asset: Uuid | Active(cfg, code, asset) ensures ActiveAsset(cfg, code) == Some(asset) {
      var c :| c in cfg.assets && Capitals(code, c) && cfg.assets[c] == Asset(asset, true);
      UpperIsCapitals(code, c);
    }
  }

  /** The active asset with this code, if there is one. */
  function ActiveAsset(cfg: Config, code: string): Option<Uuid> {
    var c := Upper(code);
    if c in cfg.assets && cfg.assets[c].isActive then Some(cfg.assets[c].id) else None
  }

  predicate KnownAsset(cfg: Config, asset: Uuid) {
    exists c :: c in cfg.assets && cfg.assets[c].id == asset
  }

  function HexDigit(d: nat): char
    requires d < 16
  {
    (if d < 10 then d + '0' as int else d - 10 + 'a' as int) as char
  }

  function UuidText(n: Uuid): (s: string)
    ensures |s| > 0
  {
    (if n < 16 then [] else UuidText(n / 16)) + [HexDigit(n % 16)]
  }

  /** The idempotency key of a reservation transaction. */
  function LedgerKey(cfg: Config, user: Uuid, key: string): string {
    cfg.digest(UuidText(user) + ":" + key)
  }

  function EventTypeText(kind: EventKind): string {
    match kind
    case OrderCreated => "order.created"
    case OrderCanceled => "order.canceled"
  }

  function EventKey(kind: EventKind, order: Uuid): string {
    EventTypeText(kind) + ":" + UuidText(order)
  }

  lemma {:induction false} UuidTextParts(n: Uuid)
    ensures UuidText(n)[|UuidText(n)| - 1] == HexDigit(n % 16)
    ensures UuidText(n)[..|UuidText(n)| - 1] == if n < 16 then [] else UuidText(n / 16)
  {
  }

  lemma {:induction false} UuidTextInjective(a: Uuid, b: Uuid)
    requires UuidText(a) == UuidText(b)
    ensures a == b
  {
    UuidTextParts(a);
    UuidTextParts(b);
    if a >= 16 && b >= 16 {
      UuidTextInjective(a / 16, b / 16);
    }
  }

  /** The number that a text of hexadecimal digits denotes. */
  function HexValue(s: string): nat {
    if s == [] then 0 else 16 * HexValue(s[..|s| - 1]) + DigitValue(s[|s| - 1])
  }

  function DigitValue(c: char): nat {
    if '0' <= c <= '9' then (c - '0') as nat else if 'a' <= c <= 'f' then (c - 'a') as nat + 10 else 0
  }

  predicate IsHex(c: char) {
    '0' <= c <= '9' || 'a' <= c <= 'f'
  }

  /** The text of an identifier is a hexadecimal numeral that denotes it. */
  lemma {:induction false} UuidTextDenotes(n: Uuid)
    ensures HexValue(UuidText(n)) == n
    ensures forall i :: 0 <= i < |UuidText(n)| ==> IsHex(UuidText(n)[i])
  {
    UuidTextParts(n);
    var text := UuidText(n);
    if n >= 16 {
      UuidTextDenotes(n / 16);
      assert text == UuidText(n / 16) + [HexDigit(n % 16)];
    } else {
      assert text == [HexDigit(n)];
      assert text[..0] == [];
    }
  }

  /** The text that a ledger key digests tells apart any two pairs of user and key. */
  lemma {:induction false} LedgerTextInjective(u: Uuid, k: string, v: Uuid, l: string)
    ensures UuidText(u) + ":" + k == UuidText(v) + ":" + l <==> u == v && k == l
  {
    if UuidText(u) + ":" + k == UuidText(v) + ":" + l {
      UuidTextDenotes(u);
      UuidTextDenotes(v);
      ColonSplits(UuidText(u), k, UuidText(v), l);
    }
  }

  /** With an injective digest a ledger key is used by one user and key only. */
  lemma LedgerKeyInjective(cfg: Config, u: Uuid, k: string, v: Uuid, l: string)
    requires InjectiveDigest(cfg)
    ensures LedgerKey(cfg, u, k) == LedgerKey(cfg, v, l) <==> u == v && k == l
  {
    LedgerTextInjective(u, k, v, l);
  }

  ghost predicate InjectiveDigest(cfg: Config) {
    forall a, b :: cfg.digest(a) == cfg.digest(b) ==> a == b
  }

  /** What the event keys say. */
  lemma {:induction false} EventKeyText(order: Uuid)
    ensures EventKey(OrderCreated, order) == "order.created:" + UuidText(order)
    ensures EventKey(OrderCanceled, order) == "order.canceled:" + UuidText(order)
  {
  }

  /** The first colon separates the type from the identifier. */
  lemma ColonSplits(s: string, a: string, t: string, b: string)
    requires s + ":" + a == t + ":" + b
    requires ':' !in s && ':' !in t
    ensures s == t && a == b
  {
    var whole := s + ":" + a;
    assert whole[|s|] == ':' && whole[|t|] == ':';
    assert s == whole[..|s|] && t == whole[..|t|];
    assert a == whole[|s| + 1..] && b == whole[|t| + 1..];
  }

  /** `event_key` tells apart any two order transitions: the type and the order can be read back. */
  lemma EventKeyInjective(k1: EventKind, o1: Uuid, k2: EventKind, o2: Uuid)
    requires EventKey(k1, o1) == EventKey(k2, o2)
    ensures k1 == k2 && o1 == o2
  {
    EventTypesDiffer();
    ColonSplits(EventTypeText(k1), UuidText(o1), EventTypeText(k2), UuidText(o2));
    UuidTextInjective(o1, o2);
  }

  lemma EventTypesDiffer()
    ensures |EventTypeText(OrderCreated)| != |EventTypeText(OrderCanceled)|
    ensures ':' !in EventTypeText(OrderCreated) && ':' !in EventTypeText(OrderCanceled)
  {
  }
}
