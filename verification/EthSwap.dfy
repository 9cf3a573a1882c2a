/**
 The EVM side of a legacy atomic swap: building, validating, spending and refunding hash time
 locked payments, directly or through a watcher.

 Hash functions are parameters, a contract call is a function with its tokens, and the swap
 contract is a state machine that keeps, per payment id, the tuple the payment committed to.
 */
module EthSwap {
  import opened Wrappers

  type Bytes = seq<nat>
  type Address = nat

  const ZERO_ADDRESS: Address := 0
  const ETH_DECIMALS := 18
  const U32_LIMIT := 0x1_0000_0000
  const U64_LIMIT := 0x1_0000_0000_0000_0000
  const U256_LIMIT := 0x1_0000000000000000_0000000000000000_0000000000000000_0000000000000000

  datatype Hashes = Hashes(sha256: Bytes -> Bytes, ripemd160: Bytes -> Bytes) {
    ghost predicate WellSized() {
      (forall b :: |sha256(b)| == 32) && (forall b :: |ripemd160(b)| == 20)
    }

    function DHash160(b: Bytes): Bytes {
      ripemd160(sha256(b))
    }
  }

  datatype SwapError =
    | InvalidArgument
    | NumConversion
    | Overflow
    | UnknownFunction
    | Encoding
    | Decoding
    | WrongState
    | WrongPaymentTx
    | RewardTooLow

  // ---------------------------------------------------------------------------------------
  // Contract calls
  // ---------------------------------------------------------------------------------------

  datatype Token = FixedBytes(bytes: Bytes) | AddressToken(address: Address) | Uint(uint: nat) | Bool(flag: bool)

  datatype ParamType = Bytes32 | Bytes20 | UintType | AddressType | BoolType

  datatype Function =
    | EthPayment | EthPaymentReward
    | Erc20Payment | Erc20PaymentReward
    | ReceiverSpend | ReceiverSpendReward
    | SenderRefund | SenderRefundReward
  {
    predicate IsReward() {
      EthPaymentReward? || Erc20PaymentReward? || ReceiverSpendReward? || SenderRefundReward?
    }

    function Params(): seq<ParamType> {
      match this
      case EthPayment => [Bytes32, AddressType, Bytes20, UintType]
      case EthPaymentReward => [Bytes32, AddressType, Bytes20, UintType, UintType, BoolType, UintType]
      case Erc20Payment => [Bytes32, UintType, AddressType, AddressType, Bytes20, UintType]
      case Erc20PaymentReward =>
        [Bytes32, UintType, AddressType, AddressType, Bytes20, UintType, UintType, BoolType, UintType]
      case ReceiverSpend => [Bytes32, UintType, Bytes32, AddressType, AddressType]
      case ReceiverSpendReward =>
        [Bytes32, UintType, Bytes32, AddressType, AddressType, AddressType, UintType, BoolType, UintType]
      case SenderRefund => [Bytes32, UintType, Bytes20, AddressType, AddressType]
      case SenderRefundReward =>
        [Bytes32, UintType, Bytes20, AddressType, AddressType, AddressType, UintType, BoolType, UintType]
    }
  }

  predicate Fits(t: Token, p: ParamType) {
    match p
    case Bytes32 => t.FixedBytes? && |t.bytes| == 32
    case Bytes20 => t.FixedBytes? && |t.bytes| == 20
    case UintType => t.Uint?
    case AddressType => t.AddressToken?
    case BoolType => t.Bool?
  }

  predicate WellTyped(f: Function, args: seq<Token>) {
    |args| == |f.Params()| && forall i :: 0 <= i < |args| ==> Fits(args[i], f.Params()[i])
  }

  datatype Call = Call(function_: Function, args: seq<Token>)

  /** The contract interface the node is built with may lack the reward variants. */
  function Encode(hasRewards: bool, f: Function, args: seq<Token>): Result<Call, SwapError> {
    if f.IsReward() && !hasRewards then Err(UnknownFunction)
    else if !WellTyped(f, args) then Err(Encoding)
    else Ok(Call(f, args))
  }

  function Decode(hasRewards: bool, f: Function, call: Call): (r: Result<seq<Token>, SwapError>)
    ensures r.Ok? ==> call == Call(f, r.value) && WellTyped(f, r.value)
  {
    if f.IsReward() && !hasRewards then Err(UnknownFunction)
    else if call.function_ != f || !WellTyped(f, call.args) then Err(Decoding)
    else Ok(call.args)
  }

  /** A transaction; `to` is `None` when it creates a contract. */
  datatype Tx = Tx(sender: Address, to: Option<Address>, value: nat, data: Call)

  // ---------------------------------------------------------------------------------------
  // Coins and amounts
  // ---------------------------------------------------------------------------------------

  datatype CoinType = Eth | Erc20(tokenAddress: Address)

  datatype Coin = Coin(coinType: CoinType, decimals: nat, hasRewards: bool, hashes: Hashes) {
    function PaymentFunction(reward: bool): Function {
      match coinType
      case Eth => if reward then EthPaymentReward else EthPayment
      case Erc20(_) => if reward then Erc20PaymentReward else Erc20Payment
    }

    /** The token argument of spend and refund calls. */
    function TokenAddress(): Address {
      match coinType
      case Eth => ZERO_ADDRESS
      case Erc20(a) => a
    }
  }

  function Pow10(n: nat): (p: nat)
    ensures p > 0
  {
    if n == 0 then 1 else 10 * Pow10(n - 1)
  }

  /** The amount in the smallest units; what does not fit a unit is cut off. */
  function U256FromDecimal(amount: real, decimals: nat): Result<nat, SwapError> {
    if amount < 0.0 then Err(NumConversion)
    else
      var units := (amount * Pow10(decimals) as real).Floor;
      if units >= U256_LIMIT then Err(NumConversion) else Ok(units)
  }

  function AddU256(a: nat, b: nat): Result<nat, SwapError> {
    if a + b >= U256_LIMIT then Err(Overflow) else Ok(a + b)
  }

  function LittleEndian(n: nat, width: nat): (b: Bytes)
    ensures |b| == width
  {
    if width == 0 then [] else [n % 256] + LittleEndian(n / 256, width - 1)
  }

  function SwapId(h: Hashes, timeLock: nat, secretHash: Bytes): Bytes {
    h.sha256(LittleEndian(timeLock, 4) + secretHash)
  }

  /** Contracts know the 20-byte hash; a 32-byte SHA-256 hash is hashed once more. */
  function ContractSecretHash(h: Hashes, secretHash: Bytes): Bytes {
    if |secretHash| == 32 then h.ripemd160(secretHash) else secretHash
  }

  // ---------------------------------------------------------------------------------------
  // Watcher rewards
  // ---------------------------------------------------------------------------------------

  datatype RewardTarget = NoTarget | Contract | PaymentSender | PaymentSpender | PaymentReceiver {
    function AsU8(): nat {
      match this
      case NoTarget => 0
      case Contract => 1
      case PaymentSender => 2
      case PaymentSpender => 3
      case PaymentReceiver => 4
    }
  }

  datatype WatcherReward = WatcherReward(amount: real, isExact: bool, target: RewardTarget, onSpend: bool)

  const REWARD_OVERPAY_FACTOR := 1.5

  /** Nine tenths of the reward, rounded down. */
  function RewardLowerBoundary(reward: nat): nat {
    reward * 9 / 10
  }

  function ValidateWatcherReward(expected: nat, actual: nat, isExact: bool): Result<(), SwapError> {
    if isExact then if actual != expected then Err(WrongPaymentTx) else Ok(())
    else if actual < RewardLowerBoundary(expected) then Err(RewardTooLow) else Ok(())
  }

  /** Which amount of a payment the reward is counted into. */
  datatype Place = Nowhere | Native | InToken

  /** Where the payer counts the reward. */
  function PaidAt(t: CoinType, target: RewardTarget, onSpend: bool): Place {
    match t
    case Eth => if target.NoTarget? && !onSpend then Nowhere else Native
    case Erc20(_) => TokenRewardPlace(target, onSpend)
  }

  /** Where the validator expects it. */
  function ExpectedAt(t: CoinType, target: RewardTarget, onSpend: bool): Place {
    match t
    case Eth => if (target.NoTarget? || target.PaymentReceiver?) && !onSpend then Nowhere else Native
    case Erc20(_) => TokenRewardPlace(target, onSpend)
  }

  function TokenRewardPlace(target: RewardTarget, onSpend: bool): Place {
    match target
    case Contract => Native
    case PaymentSender => Native
    case PaymentSpender => InToken
    case _ => if onSpend then Native else Nowhere
  }

  /** The reward in the units of the place it is counted into. */
  function RewardUnits(coin: Coin, target: RewardTarget, onSpend: bool, amount: real): Result<nat, SwapError> {
    match coin.coinType
    case Eth => U256FromDecimal(amount, coin.decimals)
    case Erc20(_) =>
      match TokenRewardPlace(target, onSpend)
      case Native => U256FromDecimal(amount, ETH_DECIMALS)
      case InToken => U256FromDecimal(amount, coin.decimals)
      case Nowhere => Ok(0)
  }

  /** The payer pays half as much again as the reward it computed. */
  function PaidReward(coin: Coin, w: WatcherReward): Result<nat, SwapError> {
    RewardUnits(coin, w.target, w.onSpend, w.amount * REWARD_OVERPAY_FACTOR)
  }

  function ExpectedReward(coin: Coin, w: WatcherReward): Result<nat, SwapError> {
    RewardUnits(coin, w.target, w.onSpend, w.amount)
  }

  // ---------------------------------------------------------------------------------------
  // Sending a payment
  // ---------------------------------------------------------------------------------------

  /** `receiver` and `swapContract` are `None` when the public key or the address does not parse. */
  datatype SendArgs = SendArgs(
    timeLock: nat,
    receiver: Option<Address>,
    secretHash: Bytes,
    amount: real,
    swapContract: Option<Address>,
    reward: Option<WatcherReward>)

  function RewardTokens(w: WatcherReward, units: nat): seq<Token> {
    [Uint(w.target.AsU8()), Bool(w.onSpend), Uint(units)]
  }

  function PaymentTokens(t: CoinType, id: Bytes, amount: nat, receiver: Address, secretHash: Bytes, timeLock: nat)
    : seq<Token>
  {
    match t
    case Eth => [FixedBytes(id), AddressToken(receiver), FixedBytes(secretHash), Uint(timeLock)]
    case Erc20(token) =>
      [FixedBytes(id), Uint(amount), AddressToken(token), AddressToken(receiver), FixedBytes(secretHash),
       Uint(timeLock)]
  }

  /** The amounts of a payment: what is sent along, and the token amount of an ERC20 payment. */
  datatype Amounts = Amounts(value: nat, tokens: nat)

  function PaymentAmounts(t: CoinType, trade: nat, place: Place, reward: nat): Result<Amounts, SwapError> {
    var native := if t.Eth? then trade else 0;
    var value :- AddU256(native, if place.Native? then reward else 0);
    var tokens :- AddU256(trade, if place.InToken? then reward else 0);
    Ok(Amounts(value, tokens))
  }

  /** What a payment transaction has to be. */
  function PaymentTx(coin: Coin, my: Address, args: SendArgs): Result<Tx, SwapError> {
    if args.receiver.None? || args.swapContract.None? || args.timeLock >= U32_LIMIT then Err(InvalidArgument)
    else
      var trade :- U256FromDecimal(args.amount, coin.decimals);
      var reward :- if args.reward.None? then Ok(0) else PaidReward(coin, args.reward.value);
      var place := if args.reward.None? then Nowhere
                   else PaidAt(coin.coinType, args.reward.value.target, args.reward.value.onSpend);
      var amounts :- PaymentAmounts(coin.coinType, trade, place, reward);
      var tokens := PaymentTokens(coin.coinType, SwapId(coin.hashes, args.timeLock, args.secretHash), amounts.tokens,
                                  args.receiver.value, ContractSecretHash(coin.hashes, args.secretHash), args.timeLock)
                    + if args.reward.None? then [] else RewardTokens(args.reward.value, reward);
      var data :- Encode(coin.hasRewards, coin.PaymentFunction(args.reward.Some?), tokens);
      Ok(Tx(my, args.swapContract, amounts.value, data))
  }

  method SendEthPayment(coin: Coin, my: Address, args: SendArgs) returns (r: Result<Tx, SwapError>)
    requires coin.coinType.Eth?
    requires args.receiver.Some? && args.swapContract.Some? && args.timeLock < U32_LIMIT
    ensures r == PaymentTx(coin, my, args)
  {
    var id := SwapId(coin.hashes, args.timeLock, args.secretHash);
    var tradeAmount :- U256FromDecimal(args.amount, coin.decimals);
    var secretHash := ContractSecretHash(coin.hashes, args.secretHash);
    var value := tradeAmount;
    var tokens := [FixedBytes(id), AddressToken(args.receiver.value), FixedBytes(secretHash), Uint(args.timeLock)];
    if args.reward.Some? {
      var w := args.reward.value;
      var rewardAmount :- U256FromDecimal(w.amount * REWARD_OVERPAY_FACTOR, coin.decimals);
      if !w.target.NoTarget? || w.onSpend {
        value :- AddU256(value, rewardAmount);
      }
      tokens := tokens + [Uint(w.target.AsU8()), Bool(w.onSpend), Uint(rewardAmount)];
    } else {
      assert tokens + [] == tokens;
    }
    var data :- Encode(coin.hasRewards, if args.reward.Some? then EthPaymentReward else EthPayment, tokens);
    return Ok(Tx(my, args.swapContract, value, data));
  }

  /** The reward of an ERC20 payment, and the amounts with the reward counted in. */
  method Erc20PaidAmounts(coin: Coin, w: WatcherReward, trade: nat) returns (r: Result<(nat, Amounts), SwapError>)
    requires coin.coinType.Erc20? && trade < U256_LIMIT
    ensures var reward := PaidReward(coin, w);
            r == if reward.Err? then Err(reward.error)
                 else
                   var amounts := PaymentAmounts(coin.coinType, trade, PaidAt(coin.coinType, w.target, w.onSpend),
                                                 reward.value);
                   if amounts.Err? then Err(amounts.error) else Ok((reward.value, amounts.value))
  {
    var rewardAmount :- RewardUnits(coin, w.target, w.onSpend, w.amount * REWARD_OVERPAY_FACTOR);
    var value, amount := 0, trade;
    match w.target {
      case Contract => value := value + rewardAmount;
      case PaymentSender => value := value + rewardAmount;
      case PaymentSpender => amount :- AddU256(amount, rewardAmount);
      case _ =>
        if w.onSpend {
          value := value + rewardAmount;
        }
    }
    return Ok((rewardAmount, Amounts(value, amount)));
  }

  method SendErc20Payment(coin: Coin, my: Address, args: SendArgs) returns (r: Result<Tx, SwapError>)
    requires coin.coinType.Erc20?
    requires args.receiver.Some? && args.swapContract.Some? && args.timeLock < U32_LIMIT
    ensures r == PaymentTx(coin, my, args)
  {
    var id := SwapId(coin.hashes, args.timeLock, args.secretHash);
    var tradeAmount :- U256FromDecimal(args.amount, coin.decimals);
    var secretHash := ContractSecretHash(coin.hashes, args.secretHash);
    var amounts := Amounts(0, tradeAmount);
    var rewardTokens := [];
    if args.reward.Some? {
      var paid :- Erc20PaidAmounts(coin, args.reward.value, tradeAmount);
      amounts := paid.1;
      rewardTokens := [Uint(args.reward.value.target.AsU8()), Bool(args.reward.value.onSpend), Uint(paid.0)];
    }
    var tokens := [FixedBytes(id), Uint(amounts.tokens), AddressToken(coin.coinType.tokenAddress),
                   AddressToken(args.receiver.value), FixedBytes(secretHash), Uint(args.timeLock)] + rewardTokens;
    var data :- Encode(coin.hasRewards, if args.reward.Some? then Erc20PaymentReward else Erc20Payment, tokens);
    return Ok(Tx(my, args.swapContract, amounts.value, data));
  }

  method SendHashTimeLockedPayment(coin: Coin, my: Address, args: SendArgs) returns (r: Result<Tx, SwapError>)
    ensures r == PaymentTx(coin, my, args)
  {
    if args.receiver.None? || args.swapContract.None? || args.timeLock >= U32_LIMIT {
      return Err(InvalidArgument);
    }
    match coin.coinType {
      case Eth => r := SendEthPayment(coin, my, args);
      case Erc20(_) => r := SendErc20Payment(coin, my, args);
    }
  }

  // ---------------------------------------------------------------------------------------
  // Validating a payment
  // ---------------------------------------------------------------------------------------

  datatype PaymentState = Uninitialized | Sent | Spent | Refunded

  /** What the validator expects; `sender` and `swapContract` are `None` when they do not parse. */
  datatype ValidateInput = ValidateInput(
    timeLock: nat,
    sender: Option<Address>,
    secretHash: Bytes,
    amount: real,
    swapContract: Option<Address>,
    reward: Option<WatcherReward>)

  /** The reward of a payment is encoded as expected and high enough. */
  predicate AcceptsReward(coin: Coin, w: WatcherReward, tokens: seq<Token>, actual: nat) {
    && tokens == RewardTokens(w, actual)
    && ExpectedReward(coin, w).Ok?
    && ExpectedReward(coin, w).value < U64_LIMIT && actual < U64_LIMIT
    && ValidateWatcherReward(ExpectedReward(coin, w).value, actual, w.isExact).Ok?
  }

  /** The index of the first reward argument of a payment call. */
  function RewardIndex(t: CoinType): nat {
    if t.Eth? then 4 else 6
  }

  /**
   The decoded arguments and the value are the expected ones, up to the encoded reward and, for an
   ERC20 payment without a reward, up to the token amount.
   */
  ghost predicate HasValidArgs(coin: Coin, my: Address, input: ValidateInput, id: Bytes, trade: nat, tx: Tx)
    requires Decode(coin.hasRewards, coin.PaymentFunction(input.reward.Some?), tx.data).Ok?
  {
    var t := coin.coinType;
    var args := tx.data.args;
    var i := RewardIndex(t);
    var secretHash := ContractSecretHash(coin.hashes, input.secretHash);
    if input.reward.None? then
      && (exists tokens :: args == PaymentTokens(t, id, tokens, my, secretHash, input.timeLock))
      && tx.value == if t.Eth? then trade else 0
    else
      var w := input.reward.value;
      var amounts := PaymentAmounts(t, trade, ExpectedAt(t, w.target, w.onSpend), args[i + 2].uint);
      && AcceptsReward(coin, w, args[i..], args[i + 2].uint)
      && amounts.Ok? && tx.value == amounts.value.value
      && args[..i] == PaymentTokens(t, id, amounts.value.tokens, my, secretHash, input.timeLock)
  }

  /** When a payment is valid. */
  ghost predicate IsValid(coin: Coin, my: Address, input: ValidateInput, status: Bytes -> PaymentState, tx: Tx) {
    && input.sender == Some(tx.sender) && input.swapContract.Some? && tx.to == input.swapContract
    && input.timeLock < U32_LIMIT
    && U256FromDecimal(input.amount, coin.decimals).Ok?
    && Decode(coin.hasRewards, coin.PaymentFunction(input.reward.Some?), tx.data).Ok?
    && var id := SwapId(coin.hashes, input.timeLock, input.secretHash);
       && status(id) == Sent
       && HasValidArgs(coin, my, input, id, U256FromDecimal(input.amount, coin.decimals).value, tx)
  }

  lemma RewardArgsFit(t: CoinType, args: seq<Token>)
    requires WellTyped(if t.Eth? then EthPaymentReward else Erc20PaymentReward, args)
    ensures var i := RewardIndex(t); |args| == i + 3 && args[i].Uint? && args[i + 1].Bool? && args[i + 2].Uint?
  {
    var i := RewardIndex(t);
    var params := (if t.Eth? then EthPaymentReward else Erc20PaymentReward).Params();
    assert Fits(args[i], params[i]) && Fits(args[i + 1], params[i + 1]) && Fits(args[i + 2], params[i + 2]);
  }

  /** Checks the reward arguments and returns the encoded reward. */
  method ValidateRewardArgs(coin: Coin, w: WatcherReward, tokens: seq<Token>) returns (r: Result<nat, SwapError>)
    requires |tokens| == 3 && tokens[0].Uint? && tokens[1].Bool? && tokens[2].Uint?
    ensures r.Ok? <==> AcceptsReward(coin, w, tokens, tokens[2].uint)
    ensures r.Ok? ==> r.value == tokens[2].uint
  {
    if tokens[0] != Uint(w.target.AsU8()) {
      return Err(WrongPaymentTx);
    }
    if tokens[1] != Bool(w.onSpend) {
      return Err(WrongPaymentTx);
    }
    var expectedReward :- ExpectedReward(coin, w);
    var actualReward := tokens[2].uint;
    if expectedReward >= U64_LIMIT || actualReward >= U64_LIMIT {
      return Err(Overflow);
    }
    var _ :- ValidateWatcherReward(expectedReward, actualReward, w.isExact);
    return Ok(actualReward);
  }

  method ValidateEthPayment(coin: Coin, my: Address, input: ValidateInput, id: Bytes, trade: nat, tx: Tx)
    returns (r: Result<(), SwapError>)
    requires coin.coinType.Eth? && trade < U256_LIMIT
    ensures r.Ok? <==>
      && Decode(coin.hasRewards, coin.PaymentFunction(input.reward.Some?), tx.data).Ok?
      && HasValidArgs(coin, my, input, id, trade, tx)
  {
    var expectedValue := trade;
    var decoded :- Decode(coin.hasRewards, coin.PaymentFunction(input.reward.Some?), tx.data);
    if decoded[0] != FixedBytes(id) {
      return Err(WrongPaymentTx);
    }
    if decoded[1] != AddressToken(my) {
      return Err(WrongPaymentTx);
    }
    if decoded[2] != FixedBytes(ContractSecretHash(coin.hashes, input.secretHash)) {
      return Err(WrongPaymentTx);
    }
    if decoded[3] != Uint(input.timeLock) {
      return Err(WrongPaymentTx);
    }
    assert decoded[..4] == PaymentTokens(coin.coinType, id, trade, my,
                                         ContractSecretHash(coin.hashes, input.secretHash), input.timeLock);
    assert input.reward.None? ==> decoded[..4] == decoded;
    if input.reward.Some? {
      var w := input.reward.value;
      RewardArgsFit(coin.coinType, decoded);
      var actualReward :- ValidateRewardArgs(coin, w, decoded[4..]);
      match w.target {
        case NoTarget =>
          if w.onSpend {
            expectedValue :- AddU256(expectedValue, actualReward);
          }
        case PaymentReceiver =>
          if w.onSpend {
            expectedValue :- AddU256(expectedValue, actualReward);
          }
        case _ =>
          expectedValue :- AddU256(expectedValue, actualReward);
      }
    }
    if tx.value != expectedValue {
      return Err(WrongPaymentTx);
    }
    return Ok(());
  }

  method Erc20ExpectedAmounts(t: CoinType, w: WatcherReward, trade: nat, actualReward: nat)
    returns (r: Result<Amounts, SwapError>)
    requires t.Erc20? && trade < U256_LIMIT && actualReward < U64_LIMIT
    ensures r == PaymentAmounts(t, trade, ExpectedAt(t, w.target, w.onSpend), actualReward)
  {
    var expectedValue := 0;
    var expectedAmount := trade;
    match w.target {
      case PaymentSender => expectedValue := expectedValue + actualReward;
      case Contract => expectedValue := expectedValue + actualReward;
      case PaymentSpender => expectedAmount :- AddU256(expectedAmount, actualReward);
      case _ =>
        if w.onSpend {
          expectedValue := expectedValue + actualReward;
        }
    }
    return Ok(Amounts(expectedValue, expectedAmount));
  }

  /** Compares the arguments of an ERC20 payment call other than the token amount and the reward. */
  method ValidateErc20Args(token: Address, my: Address, id: Bytes, secretHash: Bytes, timeLock: nat,
                           decoded: seq<Token>)
    returns (r: Result<(), SwapError>)
    requires |decoded| >= 6 && decoded[1].Uint?
    ensures r.Ok? <==> decoded[..6] == PaymentTokens(Erc20(token), id, decoded[1].uint, my, secretHash, timeLock)
  {
    if decoded[0] != FixedBytes(id) {
      return Err(WrongPaymentTx);
    }
    if decoded[2] != AddressToken(token) {
      return Err(WrongPaymentTx);
    }
    if decoded[3] != AddressToken(my) {
      return Err(WrongPaymentTx);
    }
    if decoded[4] != FixedBytes(secretHash) {
      return Err(WrongPaymentTx);
    }
    if decoded[5] != Uint(timeLock) {
      return Err(WrongPaymentTx);
    }
    return Ok(());
  }

  /** For an ERC20 payment the token amount is compared only when there is a reward. */
  method ValidateErc20Payment(coin: Coin, my: Address, input: ValidateInput, id: Bytes, trade: nat, tx: Tx)
    returns (r: Result<(), SwapError>)
    requires coin.coinType.Erc20? && trade < U256_LIMIT
    ensures r.Ok? <==>
      && Decode(coin.hasRewards, coin.PaymentFunction(input.reward.Some?), tx.data).Ok?
      && HasValidArgs(coin, my, input, id, trade, tx)
  {
    var expectedValue := 0;
    var expectedAmount := trade;
    var decoded :- Decode(coin.hasRewards, coin.PaymentFunction(input.reward.Some?), tx.data);
    assert Fits(decoded[1], UintType);
    var _ :- ValidateErc20Args(coin.coinType.tokenAddress, my, id, ContractSecretHash(coin.hashes, input.secretHash),
                               input.timeLock, decoded);
    if input.reward.Some? {
      var w := input.reward.value;
      RewardArgsFit(coin.coinType, decoded);
      var actualReward :- ValidateRewardArgs(coin, w, decoded[6..]);
      var amounts :- Erc20ExpectedAmounts(coin.coinType, w, trade, actualReward);
      expectedValue, expectedAmount := amounts.value, amounts.tokens;
      if decoded[1] != Uint(expectedAmount) {
        return Err(WrongPaymentTx);
      }
    } else {
      assert decoded[..6] == decoded;
    }
    if tx.value != expectedValue {
      return Err(WrongPaymentTx);
    }
    return Ok(());
  }

  /** Validates the payment `tx` that the node reports, with the contract state read through `status`. */
  method ValidatePayment(coin: Coin, my: Address, input: ValidateInput, status: Bytes -> PaymentState, tx: Tx)
    returns (r: Result<(), SwapError>)
    ensures r.Ok? <==> IsValid(coin, my, input, status, tx)
  {
    if input.swapContract.None? || input.sender.None? || input.timeLock >= U32_LIMIT {
      return Err(InvalidArgument);
    }
    var id := SwapId(coin.hashes, input.timeLock, input.secretHash);
    var trade :- U256FromDecimal(input.amount, coin.decimals);
    if status(id) != Sent {
      return Err(WrongState);
    }
    if Some(tx.sender) != input.sender || tx.to != input.swapContract {
      return Err(WrongPaymentTx);
    }
    match coin.coinType {
      case Eth => r := ValidateEthPayment(coin, my, input, id, trade, tx);
      case Erc20(_) => r := ValidateErc20Payment(coin, my, input, id, trade, tx);
    }
  }

  // ---------------------------------------------------------------------------------------
  // What sender and validator agree on
  // ---------------------------------------------------------------------------------------

  /** The validator looks at the payment the sender made, and both know the terms of the swap. */
  predicate SameTerms(args: SendArgs, my: Address, sender: Address, input: ValidateInput) {
    && args.receiver == Some(my)
    && input.sender == Some(sender)
    && input.timeLock == args.timeLock && input.secretHash == args.secretHash && input.amount == args.amount
    && input.swapContract == args.swapContract
    && input.reward.Some? == args.reward.Some?
    && (input.reward.Some? ==> && input.reward.value.target == args.reward.value.target
                               && input.reward.value.onSpend == args.reward.value.onSpend
                               && !input.reward.value.isExact)
  }

  /** The two rewards fit the type in which they are compared, and the paid one is not too low. */
  predicate RewardSuffices(coin: Coin, paid: WatcherReward, expected: WatcherReward) {
    && PaidReward(coin, paid).Ok? && PaidReward(coin, paid).value < U64_LIMIT
    && ExpectedReward(coin, expected).Ok? && ExpectedReward(coin, expected).value < U64_LIMIT
    && RewardLowerBoundary(ExpectedReward(coin, expected).value) <= PaidReward(coin, paid).value
  }

  /** The one case in which the payer counts a reward that the validator does not count. */
  predicate Miscounted(coin: Coin, w: WatcherReward) {
    coin.coinType.Eth? && w.target.PaymentReceiver? && !w.onSpend && PaidReward(coin, w) != Ok(0)
  }

  /** What an honest payment looks like from its tokens. */
  lemma PaymentTokensOf(coin: Coin, my: Address, args: SendArgs)
    requires PaymentTx(coin, my, args).Ok? && args.reward.Some?
    ensures PaidReward(coin, args.reward.value).Ok?
    ensures var tx := PaymentTx(coin, my, args).value;
            var i := RewardIndex(coin.coinType);
            var w := args.reward.value;
            var trade := U256FromDecimal(args.amount, coin.decimals).value;
            var paid := PaidReward(coin, w).value;
            var amounts := PaymentAmounts(coin.coinType, trade, PaidAt(coin.coinType, w.target, w.onSpend), paid);
            && |tx.data.args| == i + 3
            && amounts.Ok? && tx.value == amounts.value.value
            && tx.data.args[i..] == RewardTokens(w, paid)
            && tx.data.args[..i] == PaymentTokens(coin.coinType, SwapId(coin.hashes, args.timeLock, args.secretHash),
                                                  amounts.value.tokens, args.receiver.value,
                                                  ContractSecretHash(coin.hashes, args.secretHash), args.timeLock)
  {
  }

  /**
   A payment with a reward is valid to the other side exactly when the reward suffices and is not
   miscounted.
   */
  lemma RewardPaymentValidIff(coin: Coin, sender: Address, args: SendArgs, my: Address, input: ValidateInput,
                              status: Bytes -> PaymentState)
    requires PaymentTx(coin, sender, args).Ok? && args.reward.Some?
    requires SameTerms(args, my, sender, input)
    requires status(SwapId(coin.hashes, args.timeLock, args.secretHash)) == Sent
    ensures IsValid(coin, my, input, status, PaymentTx(coin, sender, args).value)
        <==> RewardSuffices(coin, args.reward.value, input.reward.value) && !Miscounted(coin, args.reward.value)
  {
    PaymentTokensOf(coin, sender, args);
    var t := coin.coinType;
    var w := args.reward.value;
    var trade := U256FromDecimal(args.amount, coin.decimals).value;
    var paid := PaidReward(coin, w).value;
    var there := PaymentAmounts(t, trade, PaidAt(t, w.target, w.onSpend), paid);
    var here := PaymentAmounts(t, trade, ExpectedAt(t, w.target, w.onSpend), paid);
    assert Miscounted(coin, w) <==> !(here.Ok? && here.value == there.value);
    assert Miscounted(coin, w) && here.Ok? ==> here.value.value != there.value.value;
  }

  lemma SwapIdHas32Bytes(h: Hashes, timeLock: nat, secretHash: Bytes)
    requires h.WellSized()
    ensures |SwapId(h, timeLock, secretHash)| == 32
  {
  }

  lemma Pow10Of18()
    ensures Pow10(18) == 1_000_000_000_000_000_000
  {
    assert Pow10(6) == 1_000_000;
    assert Pow10(12) == 1_000_000_000_000;
  }

  /**
   An instance of the miscounted case: 10 coins and a reward of 2 are paid as 13 coins, of which 10 are
   expected, in units of 10^-18.
   */
  lemma PaymentReceiverRewardIsRejected(h: Hashes, status: Bytes -> PaymentState)
    requires h.WellSized()
    ensures var coin := Coin(Eth, ETH_DECIMALS, true, h);
            var reward := WatcherReward(2.0, false, PaymentReceiver, false);
            var secretHash := h.DHash160([]);
            var tx := PaymentTx(coin, 1, SendArgs(5, Some(2), secretHash, 10.0, Some(9), Some(reward)));
            && tx.Ok? && tx.value.value == 13_000_000_000_000_000_000
            && !IsValid(coin, 2, ValidateInput(5, Some(1), secretHash, 10.0, Some(9), Some(reward)), status, tx.value)
  {
    var coin := Coin(Eth, ETH_DECIMALS, true, h);
    var reward := WatcherReward(2.0, false, PaymentReceiver, false);
    Pow10Of18();
    assert PaidReward(coin, reward) == Ok(3_000_000_000_000_000_000);
    assert U256FromDecimal(10.0, ETH_DECIMALS) == Ok(10_000_000_000_000_000_000);
    assert PaymentAmounts(Eth, 10_000_000_000_000_000_000, Native, 3_000_000_000_000_000_000)
        == Ok(Amounts(13_000_000_000_000_000_000, 10_000_000_000_000_000_000));
    var secretHash := h.DHash160([]);
    var args := SendArgs(5, Some(2), secretHash, 10.0, Some(9), Some(reward));
    var tokens := PaymentTokens(Eth, SwapId(h, 5, secretHash), 10_000_000_000_000_000_000, 2, secretHash, 5)
                  + RewardTokens(reward, 3_000_000_000_000_000_000);
    SwapIdHas32Bytes(h, args.timeLock, secretHash);
    assert WellTyped(EthPaymentReward, tokens);
    assert PaymentTx(coin, 1, args) == Ok(Tx(1, Some(9), 13_000_000_000_000_000_000, Call(EthPaymentReward, tokens)));
  }

  /** A payment without a reward is always valid to the other side. */
  lemma PlainPaymentValid(coin: Coin, sender: Address, args: SendArgs, my: Address, input: ValidateInput,
                          status: Bytes -> PaymentState)
    requires PaymentTx(coin, sender, args).Ok? && args.reward.None?
    requires SameTerms(args, my, sender, input)
    requires status(SwapId(coin.hashes, args.timeLock, args.secretHash)) == Sent
    ensures IsValid(coin, my, input, status, PaymentTx(coin, sender, args).value)
  {
    var tx := PaymentTx(coin, sender, args).value;
    var trade := U256FromDecimal(args.amount, coin.decimals).value;
    assert tx.data.args == PaymentTokens(coin.coinType, SwapId(coin.hashes, args.timeLock, args.secretHash), trade, my,
                                         ContractSecretHash(coin.hashes, args.secretHash), args.timeLock);
  }

  /**
   The overpay factor and the margin together tolerate a reward that the validator computes up to
   five thirds of what the payer computed.
   */
  lemma OverpayCoversPriceRise(coin: Coin, paid: WatcherReward, expected: WatcherReward)
    requires paid.target == expected.target && paid.onSpend == expected.onSpend
    requires PaidReward(coin, paid).Ok? && ExpectedReward(coin, expected).Ok?
    requires 0.0 <= expected.amount <= paid.amount * 5.0 / 3.0
    ensures RewardLowerBoundary(ExpectedReward(coin, expected).value) <= PaidReward(coin, paid).value
  {
    match coin.coinType
    case Eth => UnitsCover(paid.amount, expected.amount, coin.decimals);
    case Erc20(_) =>
      match TokenRewardPlace(paid.target, paid.onSpend)
      case Native => UnitsCover(paid.amount, expected.amount, ETH_DECIMALS);
      case InToken => UnitsCover(paid.amount, expected.amount, coin.decimals);
      case Nowhere =>
  }

  lemma UnitsCover(paid: real, expected: real, decimals: nat)
    requires 0.0 <= expected <= paid * 5.0 / 3.0
    requires U256FromDecimal(paid * REWARD_OVERPAY_FACTOR, decimals).Ok? && U256FromDecimal(expected, decimals).Ok?
    ensures RewardLowerBoundary(U256FromDecimal(expected, decimals).value)
         <= U256FromDecimal(paid * REWARD_OVERPAY_FACTOR, decimals).value
  {
    ScaleLe(expected, paid * REWARD_OVERPAY_FACTOR, Pow10(decimals) as real);
    FloorCover(expected * Pow10(decimals) as real, paid * REWARD_OVERPAY_FACTOR * Pow10(decimals) as real);
  }

  lemma ScaleLe(e: real, p: real, s: real)
    requires 0.9 * e <= p && 0.0 <= s
    ensures 0.9 * (e * s) <= p * s
  {
    assert 0.9 * (e * s) == 0.9 * e * s;
  }

  lemma FloorCover(e: real, p: real)
    requires 0.9 * e <= p
    ensures e.Floor * 9 / 10 <= p.Floor
  {
    assert (e.Floor * 9 / 10) as real <= 0.9 * e.Floor as real;
  }

  /** The reward that a valid payment counts into the value and into the token amount. */
  function Counted(p: Place, at: Place, reward: nat): nat {
    if p == at then reward else 0
  }

  /**
   In every valid Eth payment, and in every valid ERC20 payment with a reward, what is transferred
   less the reward counted into it is exactly the trade amount.
   */
  lemma ValidPaymentTransfersTradeAmount(coin: Coin, my: Address, input: ValidateInput, status: Bytes -> PaymentState,
                                         tx: Tx)
    requires IsValid(coin, my, input, status, tx)
    ensures U256FromDecimal(input.amount, coin.decimals).Ok?
    ensures var trade := U256FromDecimal(input.amount, coin.decimals).value;
            var w := input.reward;
            var i := RewardIndex(coin.coinType);
            if w.None? then tx.value == if coin.coinType.Eth? then trade else 0
            else
              && i + 2 < |tx.data.args| && tx.data.args[i + 2].Uint?
              && var place := ExpectedAt(coin.coinType, w.value.target, w.value.onSpend);
                 var reward := tx.data.args[i + 2].uint;
                 match coin.coinType
                 case Eth => tx.value - Counted(place, Native, reward) == trade
                 case Erc20(_) =>
                   && tx.data.args[1].Uint? && tx.data.args[1].uint - Counted(place, InToken, reward) == trade
                   && tx.value == Counted(place, Native, reward)
  {
    if input.reward.Some? && coin.coinType.Erc20? {
      var args := tx.data.args;
      assert args[..6][1] == args[1];
    }
  }

  /** Without a reward the token amount is not compared: any other amount is as valid. */
  lemma PlainErc20AmountIsNotCompared(coin: Coin, my: Address, input: ValidateInput, status: Bytes -> PaymentState,
                                      tx: Tx, amount: nat)
    requires coin.coinType.Erc20? && input.reward.None?
    requires IsValid(coin, my, input, status, tx)
    ensures |tx.data.args| == 6
    ensures IsValid(coin, my, input, status,
                    tx.(data := tx.data.(args := tx.data.args[1 := Uint(amount)])))
  {
    var id := SwapId(coin.hashes, input.timeLock, input.secretHash);
    var other := tx.data.args[1 := Uint(amount)];
    assert other == PaymentTokens(coin.coinType, id, amount, my, ContractSecretHash(coin.hashes, input.secretHash),
                                  input.timeLock);
  }

  // ---------------------------------------------------------------------------------------
  // What the arguments mean
  // ---------------------------------------------------------------------------------------

  /** A unit is the 10^decimals-th part of a coin, and an amount has as many units as fit it. */
  predicate IsUnits(amount: real, decimals: nat, n: nat) {
    amount >= 0.0 && n as real <= amount * Pow10(decimals) as real < n as real + 1.0
  }

  lemma Pow10Is(n: nat)
    ensures Pow10(0) == 1 && Pow10(n + 1) == 10 * Pow10(n)
    ensures Pow10(6) == 1_000_000 && Pow10(18) == 1_000_000_000_000_000_000
  {
    Pow10Of18();
  }

  lemma UnitsIff(amount: real, decimals: nat, n: nat)
    ensures U256FromDecimal(amount, decimals) == Ok(n) <==> IsUnits(amount, decimals, n) && n < U256_LIMIT
  {
    if amount >= 0.0 {
      var units := amount * Pow10(decimals) as real;
      assert units >= 0.0;
      assert units.Floor as real <= units < units.Floor as real + 1.0;
    }
  }

  /** A whole number of units is that number. */
  lemma WholeUnits(n: nat, decimals: nat)
    requires n < U256_LIMIT
    ensures U256FromDecimal(n as real / Pow10(decimals) as real, decimals) == Ok(n)
  {
    var p := Pow10(decimals) as real;
    var amount := n as real / p;
    assert amount * p == n as real;
    UnitsIff(amount, decimals, n);
  }

  /** The identifier is the hash of the lock time, as four bytes from the lowest one, and of the secret hash. */
  lemma SwapIdIs(h: Hashes, timeLock: nat, secretHash: Bytes)
    ensures SwapId(h, timeLock, secretHash)
         == h.sha256([timeLock % 256, timeLock / 256 % 256, timeLock / 256 / 256 % 256,
                      timeLock / 256 / 256 / 256 % 256] + secretHash)
  {
    var t := timeLock;
    var b1, b2, b3 := t / 256, t / 256 / 256, t / 256 / 256 / 256;
    assert LittleEndian(b3, 1) == [b3 % 256];
    assert LittleEndian(b2, 2) == [b2 % 256, b3 % 256];
    assert LittleEndian(b1, 3) == [b1 % 256, b2 % 256, b3 % 256];
    assert LittleEndian(t, 4) == [t % 256, b1 % 256, b2 % 256, b3 % 256];
  }

  /** The secret hash as an argument. */
  function HashToken(h: Hashes, secretHash: Bytes): Token {
    FixedBytes(if |secretHash| == 32 then h.ripemd160(secretHash) else secretHash)
  }

  /** The number by which a reward target is encoded. */
  lemma TargetCodes()
    ensures NoTarget.AsU8() == 0 && Contract.AsU8() == 1 && PaymentSender.AsU8() == 2
    ensures PaymentSpender.AsU8() == 3 && PaymentReceiver.AsU8() == 4
  {
  }

  /** A payment without a reward, argument by argument: it transfers the trade amount in units of the coin. */
  lemma PlainPaymentIs(coin: Coin, my: Address, args: SendArgs)
    requires PaymentTx(coin, my, args).Ok? && args.reward.None?
    ensures var tx := PaymentTx(coin, my, args).value;
            var id := FixedBytes(SwapId(coin.hashes, args.timeLock, args.secretHash));
            && args.receiver.Some? && args.swapContract.Some? && tx.sender == my && tx.to == args.swapContract
            && match coin.coinType
               case Eth =>
                 && tx.data == Call(EthPayment, [id, AddressToken(args.receiver.value),
                                                 HashToken(coin.hashes, args.secretHash), Uint(args.timeLock)])
                 && IsUnits(args.amount, coin.decimals, tx.value)
               case Erc20(token) =>
                 && tx.value == 0 && |tx.data.args| == 6 && tx.data.args[1].Uint?
                 && IsUnits(args.amount, coin.decimals, tx.data.args[1].uint)
                 && tx.data == Call(Erc20Payment, [id, tx.data.args[1], AddressToken(token),
                                                   AddressToken(args.receiver.value),
                                                   HashToken(coin.hashes, args.secretHash), Uint(args.timeLock)])
  {
    UnitsIff(args.amount, coin.decimals, U256FromDecimal(args.amount, coin.decimals).value);
  }

  lemma UnitsOkIff(amount: real, decimals: nat)
    ensures U256FromDecimal(amount, decimals).Ok?
       <==> amount >= 0.0 && (amount * Pow10(decimals) as real).Floor < U256_LIMIT
  {
  }

  lemma PlainAmounts(t: CoinType, trade: nat)
    requires trade < U256_LIMIT
    ensures PaymentAmounts(t, trade, Nowhere, 0) == Ok(Amounts(if t.Eth? then trade else 0, trade))
  {
  }

  /** When it can be built. */
  lemma PlainPaymentOkIff(coin: Coin, my: Address, args: SendArgs)
    requires args.reward.None? && coin.hashes.WellSized()
    ensures PaymentTx(coin, my, args).Ok?
       <==> && args.receiver.Some? && args.swapContract.Some? && args.timeLock < 0x1_0000_0000
            && args.amount >= 0.0 && (args.amount * Pow10(coin.decimals) as real).Floor < U256_LIMIT
            && |args.secretHash| in {20, 32}
  {
    UnitsOkIff(args.amount, coin.decimals);
    PlainTxOkIff(coin, my, args);
  }

  lemma PlainTxOkIff(coin: Coin, my: Address, args: SendArgs)
    requires args.reward.None? && coin.hashes.WellSized()
    ensures PaymentTx(coin, my, args).Ok?
       <==> && args.receiver.Some? && args.swapContract.Some? && args.timeLock < U32_LIMIT
            && U256FromDecimal(args.amount, coin.decimals).Ok? && |args.secretHash| in {20, 32}
  {
    var id := SwapId(coin.hashes, args.timeLock, args.secretHash);
    var hash := ContractSecretHash(coin.hashes, args.secretHash);
    SwapIdHas32Bytes(coin.hashes, args.timeLock, args.secretHash);
    HashHas20BytesIff(coin.hashes, args.secretHash);
    var units := U256FromDecimal(args.amount, coin.decimals);
    if args.receiver.Some? && units.Ok? {
      PlainAmounts(coin.coinType, units.value);
      var tokens := PaymentTokens(coin.coinType, id, units.value, args.receiver.value, hash, args.timeLock);
      assert tokens + [] == tokens;
      PlainTokensFitIff(coin, id, units.value, args.receiver.value, hash, args.timeLock);
    }
  }

  lemma HashHas20BytesIff(h: Hashes, secretHash: Bytes)
    requires h.WellSized()
    ensures |ContractSecretHash(h, secretHash)| == 20 <==> |secretHash| in {20, 32}
  {
  }

  lemma PlainTokensFitIff(coin: Coin, id: Bytes, amount: nat, receiver: Address, hash: Bytes, timeLock: nat)
    ensures WellTyped(coin.PaymentFunction(false), PaymentTokens(coin.coinType, id, amount, receiver, hash, timeLock))
       <==> |id| == 32 && |hash| == 20
  {
    var tokens := PaymentTokens(coin.coinType, id, amount, receiver, hash, timeLock);
    var i := if coin.coinType.Eth? then 2 else 4;
    assert tokens[0] == FixedBytes(id) && tokens[i] == FixedBytes(hash);
    assert coin.PaymentFunction(false).Params()[0] == Bytes32 && coin.PaymentFunction(false).Params()[i] == Bytes20;
  }

  /** Where the reward of an ERC20 payment goes: into the value in wei, into the token amount, or nowhere. */
  predicate IsErc20Reward(w: WatcherReward, decimals: nat, amount: real, trade: real, reward: nat, value: nat,
                          tokens: nat)
  {
    if w.target.PaymentSpender? then
      && IsUnits(amount, decimals, reward) && value == 0
      && tokens >= reward && IsUnits(trade, decimals, tokens - reward)
    else if w.target.Contract? || w.target.PaymentSender? || w.onSpend then
      IsUnits(amount, 18, reward) && value == reward && IsUnits(trade, decimals, tokens)
    else reward == 0 && value == 0 && IsUnits(trade, decimals, tokens)
  }

  /** An ETH reward is counted into the value, unless `uncounted` says otherwise. */
  predicate IsEthReward(decimals: nat, amount: real, trade: real, reward: nat, value: nat, uncounted: bool) {
    && IsUnits(amount, decimals, reward)
    && if uncounted then IsUnits(trade, decimals, value)
       else value >= reward && IsUnits(trade, decimals, value - reward)
  }

  /** An ETH payment with a reward, argument by argument: one and a half times the reward is paid. */
  lemma EthRewardPaymentIs(coin: Coin, my: Address, args: SendArgs)
    requires PaymentTx(coin, my, args).Ok? && args.reward.Some? && coin.coinType.Eth?
    ensures var tx := PaymentTx(coin, my, args).value;
            var w := args.reward.value;
            && args.receiver.Some? && tx.sender == my && tx.to == args.swapContract && tx.to.Some?
            && |tx.data.args| == 7 && tx.data.args[6].Uint?
            && IsEthReward(coin.decimals, w.amount * 1.5, args.amount, tx.data.args[6].uint, tx.value,
                           w.target.NoTarget? && !w.onSpend)
            && tx.data == Call(EthPaymentReward, [FixedBytes(SwapId(coin.hashes, args.timeLock, args.secretHash)),
                                                  AddressToken(args.receiver.value),
                                                  HashToken(coin.hashes, args.secretHash), Uint(args.timeLock),
                                                  Uint(w.target.AsU8()), Bool(w.onSpend), tx.data.args[6]])
  {
    var w := args.reward.value;
    UnitsIff(args.amount, coin.decimals, U256FromDecimal(args.amount, coin.decimals).value);
    UnitsIff(w.amount * 1.5, coin.decimals, U256FromDecimal(w.amount * 1.5, coin.decimals).value);
  }

  lemma Erc20RewardPaymentIs(coin: Coin, my: Address, args: SendArgs)
    requires PaymentTx(coin, my, args).Ok? && args.reward.Some? && coin.coinType.Erc20?
    ensures var tx := PaymentTx(coin, my, args).value;
            var w := args.reward.value;
            && args.receiver.Some? && tx.sender == my && tx.to == args.swapContract && tx.to.Some?
            && |tx.data.args| == 9 && tx.data.args[1].Uint? && tx.data.args[8].Uint?
            && IsErc20Reward(w, coin.decimals, w.amount * 1.5, args.amount, tx.data.args[8].uint, tx.value,
                             tx.data.args[1].uint)
            && tx.data == Call(Erc20PaymentReward, [FixedBytes(SwapId(coin.hashes, args.timeLock, args.secretHash)),
                                                    tx.data.args[1], AddressToken(coin.coinType.tokenAddress),
                                                    AddressToken(args.receiver.value),
                                                    HashToken(coin.hashes, args.secretHash), Uint(args.timeLock),
                                                    Uint(w.target.AsU8()), Bool(w.onSpend), tx.data.args[8]])
  {
    PaymentTokensOf(coin, my, args);
    var w := args.reward.value;
    var trade, paid := U256FromDecimal(args.amount, coin.decimals).value, PaidReward(coin, w).value;
    UnitsOf(args.amount, coin.decimals);
    Erc20AmountsAre(coin, w, args.amount, trade, paid);
    var tx := PaymentTx(coin, my, args).value;
    var all := tx.data.args;
    assert all == all[..6] + all[6..];
    assert tx.data.function_ == Erc20PaymentReward && tx.to == args.swapContract;
  }

  /** No amount exceeds 256 bits: a sum that would is an error. */
  lemma AmountsFit(t: CoinType, trade: nat, place: Place, reward: nat)
    ensures var r := PaymentAmounts(t, trade, place, reward);
            r.Ok? ==> r.value.value < 0x1_0000000000000000_0000000000000000_0000000000000000_0000000000000000
                      && r.value.tokens < U256_LIMIT
  {
  }

  lemma UnitsOf(amount: real, decimals: nat)
    ensures var r := U256FromDecimal(amount, decimals); r.Ok? ==> IsUnits(amount, decimals, r.value)
  {
    var r := U256FromDecimal(amount, decimals);
    if r.Ok? {
      UnitsIff(amount, decimals, r.value);
    }
  }

  lemma Erc20AmountsAre(coin: Coin, w: WatcherReward, amount: real, trade: nat, paid: nat)
    requires coin.coinType.Erc20? && IsUnits(amount, coin.decimals, trade) && PaidReward(coin, w) == Ok(paid)
    ensures var r := PaymentAmounts(coin.coinType, trade, PaidAt(coin.coinType, w.target, w.onSpend), paid);
            r.Ok? ==> IsErc20Reward(w, coin.decimals, w.amount * 1.5, amount, paid, r.value.value, r.value.tokens)
  {
    UnitsOf(w.amount * 1.5, coin.decimals);
    UnitsOf(w.amount * 1.5, 18);
  }

  /** What every valid payment has, and the conversion of the trade amount. */
  predicate IsFromSender(coin: Coin, input: ValidateInput, status: Bytes -> PaymentState, tx: Tx) {
    && input.sender == Some(tx.sender) && tx.to.Some? && input.swapContract == tx.to && input.timeLock < 0x1_0000_0000
    && status(SwapId(coin.hashes, input.timeLock, input.secretHash)) == Sent
    && input.amount >= 0.0 && (input.amount * Pow10(coin.decimals) as real).Floor < U256_LIMIT
  }

  /** A payment without a reward is valid exactly if it is this one; the token amount may be any. */
  lemma PlainValidIff(coin: Coin, my: Address, input: ValidateInput, status: Bytes -> PaymentState, tx: Tx)
    requires input.reward.None? && coin.hashes.WellSized() && |input.secretHash| in {20, 32}
    ensures var id := FixedBytes(SwapId(coin.hashes, input.timeLock, input.secretHash));
            IsValid(coin, my, input, status, tx) <==>
            && IsFromSender(coin, input, status, tx)
            && match coin.coinType
               case Eth =>
                 && tx.data == Call(EthPayment, [id, AddressToken(my), HashToken(coin.hashes, input.secretHash),
                                                 Uint(input.timeLock)])
                 && IsUnits(input.amount, coin.decimals, tx.value)
               case Erc20(token) =>
                 && tx.value == 0 && |tx.data.args| == 6 && tx.data.args[1].Uint?
                 && tx.data == Call(Erc20Payment, [id, tx.data.args[1], AddressToken(token), AddressToken(my),
                                                   HashToken(coin.hashes, input.secretHash), Uint(input.timeLock)])
  {
    var id, hash := SwapId(coin.hashes, input.timeLock, input.secretHash),
                    ContractSecretHash(coin.hashes, input.secretHash);
    SwapIdHas32Bytes(coin.hashes, input.timeLock, input.secretHash);
    HashHas20BytesIff(coin.hashes, input.secretHash);
    var n := if coin.coinType.Erc20? && |tx.data.args| == 6 && tx.data.args[1].Uint? then tx.data.args[1].uint else 0;
    PlainTokensFitIff(coin, id, n, my, hash, input.timeLock);
    UnitsIff(input.amount, coin.decimals, tx.value);
    UnitsOf(input.amount, coin.decimals);
  }

  /** Nine tenths of the expected reward, rounded down, or the expected reward itself, as it was agreed. */
  predicate IsEnough(w: WatcherReward, expected: nat, reward: nat) {
    && expected < 0x1_0000_0000_0000_0000 && reward < 0x1_0000_0000_0000_0000
    && if w.isExact then reward == expected else 9 * expected <= 10 * reward + 9
  }

  lemma BoundaryIs(expected: nat, reward: nat)
    ensures RewardLowerBoundary(expected) <= reward <==> 9 * expected <= 10 * reward + 9
  {
  }

  /** A valid ETH payment with a reward, argument by argument. */
  lemma EthRewardValidIs(coin: Coin, my: Address, input: ValidateInput, status: Bytes -> PaymentState, tx: Tx)
    requires IsValid(coin, my, input, status, tx) && input.reward.Some? && coin.coinType.Eth?
    ensures var w := input.reward.value;
            && IsFromSender(coin, input, status, tx)
            && |tx.data.args| == 7 && tx.data.args[6].Uint?
            && var reward := tx.data.args[6].uint;
               && (exists expected: nat :: IsUnits(w.amount, coin.decimals, expected) && IsEnough(w, expected, reward))
               && (if (w.target.NoTarget? || w.target.PaymentReceiver?) && !w.onSpend
                   then IsUnits(input.amount, coin.decimals, tx.value)
                   else tx.value >= reward && IsUnits(input.amount, coin.decimals, tx.value - reward))
               && tx.data == Call(EthPaymentReward, [FixedBytes(SwapId(coin.hashes, input.timeLock, input.secretHash)),
                                                     AddressToken(my), HashToken(coin.hashes, input.secretHash),
                                                     Uint(input.timeLock), Uint(w.target.AsU8()), Bool(w.onSpend),
                                                     Uint(reward)])
  {
    var w, all := input.reward.value, tx.data.args;
    RewardArgsFit(coin.coinType, all);
    assert all == all[..4] + all[4..];
    UnitsOf(input.amount, coin.decimals);
    UnitsOf(w.amount, coin.decimals);
    BoundaryIs(ExpectedReward(coin, w).value, all[6].uint);
    assert IsEnough(w, ExpectedReward(coin, w).value, all[6].uint);
  }

  /** A valid ERC20 payment with a reward, argument by argument. */
  lemma Erc20RewardValidIs(coin: Coin, my: Address, input: ValidateInput, status: Bytes -> PaymentState, tx: Tx)
    requires IsValid(coin, my, input, status, tx) && input.reward.Some? && coin.coinType.Erc20?
    ensures var w := input.reward.value;
            && IsFromSender(coin, input, status, tx)
            && |tx.data.args| == 9 && tx.data.args[1].Uint? && tx.data.args[8].Uint?
            && var id := SwapId(coin.hashes, input.timeLock, input.secretHash);
               tx.data == Call(Erc20PaymentReward, [FixedBytes(id), tx.data.args[1],
                                                    AddressToken(coin.coinType.tokenAddress), AddressToken(my),
                                                    HashToken(coin.hashes, input.secretHash), Uint(input.timeLock),
                                                    Uint(w.target.AsU8()), Bool(w.onSpend), tx.data.args[8]])
  {
    var all := tx.data.args;
    RewardArgsFit(coin.coinType, all);
    assert all == all[..6] + all[6..];
    assert all[..6][1] == all[1];
  }

  /** Its amounts: the reward is high enough, and the trade amount is transferred besides. */
  lemma Erc20RewardValidAmounts(coin: Coin, my: Address, input: ValidateInput, status: Bytes -> PaymentState, tx: Tx)
    requires IsValid(coin, my, input, status, tx) && input.reward.Some? && coin.coinType.Erc20?
    ensures var w, all := input.reward.value, tx.data.args;
            && |all| == 9 && all[1].Uint? && all[8].Uint?
            && (exists expected: nat ::
                  IsEnough(w, expected, all[8].uint) && IsErc20Expected(w, coin.decimals, expected))
            && IsErc20Counted(w, coin.decimals, input.amount, all[8].uint, tx.value, all[1].uint)
  {
    var w, all := input.reward.value, tx.data.args;
    RewardArgsFit(coin.coinType, all);
    var expected, trade := ExpectedReward(coin, w).value, U256FromDecimal(input.amount, coin.decimals).value;
    UnitsOf(input.amount, coin.decimals);
    Erc20ExpectedIs(coin, w);
    BoundaryIs(expected, all[8].uint);
    assert IsEnough(w, expected, all[8].uint);
    assert all[..6][1] == all[1];
    Erc20CountedIs(coin, w, input.amount, trade, all[8].uint);
  }

  lemma Erc20CountedIs(coin: Coin, w: WatcherReward, amount: real, trade: nat, reward: nat)
    requires coin.coinType.Erc20? && IsUnits(amount, coin.decimals, trade)
    ensures var r := PaymentAmounts(coin.coinType, trade, ExpectedAt(coin.coinType, w.target, w.onSpend), reward);
            r.Ok? ==> IsErc20Counted(w, coin.decimals, amount, reward, r.value.value, r.value.tokens)
  {
  }

  /** The expected reward is in units of the place where it is counted. */
  predicate IsErc20Expected(w: WatcherReward, decimals: nat, expected: nat) {
    if w.target.PaymentSpender? then IsUnits(w.amount, decimals, expected)
    else if w.target.Contract? || w.target.PaymentSender? || w.onSpend then IsUnits(w.amount, 18, expected)
    else expected == 0
  }

  predicate IsErc20Counted(w: WatcherReward, decimals: nat, trade: real, reward: nat, value: nat, tokens: nat) {
    if w.target.PaymentSpender? then value == 0 && tokens >= reward && IsUnits(trade, decimals, tokens - reward)
    else if w.target.Contract? || w.target.PaymentSender? || w.onSpend then
      value == reward && IsUnits(trade, decimals, tokens)
    else value == 0 && IsUnits(trade, decimals, tokens)
  }

  lemma Erc20ExpectedIs(coin: Coin, w: WatcherReward)
    requires coin.coinType.Erc20? && ExpectedReward(coin, w).Ok?
    ensures IsErc20Expected(w, coin.decimals, ExpectedReward(coin, w).value)
  {
    UnitsOf(w.amount, coin.decimals);
    UnitsOf(w.amount, 18);
  }

  // ---------------------------------------------------------------------------------------
  // Spending and refunding
  // ---------------------------------------------------------------------------------------

  /** The call that spends a payment, rebuilt from the payment transaction. */
  function SpendTx(coin: Coin, my: Address, status: Bytes -> PaymentState, payment: Tx, secret: Bytes,
                   swapContract: Option<Address>, reward: bool)
    : Result<Tx, SwapError>
  {
    if swapContract.None? then Err(InvalidArgument)
    else
      var d :- Decode(coin.hasRewards, coin.PaymentFunction(reward), payment.data);
      if status(d[0].bytes) != Sent then Err(WrongState)
      else
        var amount := if coin.coinType.Eth? then Uint(payment.value) else d[1];
        var i := RewardIndex(coin.coinType);
        var tokens := [d[0], amount, FixedBytes(secret), AddressToken(coin.TokenAddress()),
                       AddressToken(payment.sender)]
                      + if reward then [AddressToken(my), d[i], d[i + 1], d[i + 2]] else [];
        var data :- Encode(coin.hasRewards, if reward then ReceiverSpendReward else ReceiverSpend, tokens);
        Ok(Tx(my, swapContract, 0, data))
  }

  /** The call that refunds a payment, rebuilt from the payment transaction. */
  function RefundTx(coin: Coin, my: Address, status: Bytes -> PaymentState, payment: Tx,
                    swapContract: Option<Address>, reward: bool)
    : Result<Tx, SwapError>
  {
    if swapContract.None? then Err(InvalidArgument)
    else
      var d :- Decode(coin.hasRewards, coin.PaymentFunction(reward), payment.data);
      if status(d[0].bytes) != Sent then Err(WrongState)
      else
        var (amount, secretHash, receiver) :=
          if coin.coinType.Eth? then (Uint(payment.value), d[2], d[1]) else (d[1], d[4], d[3]);
        var i := RewardIndex(coin.coinType);
        var tokens := [d[0], amount, secretHash, AddressToken(coin.TokenAddress())]
                      + if reward then [AddressToken(my), receiver, d[i], d[i + 1], d[i + 2]] else [receiver];
        var data :- Encode(coin.hasRewards, if reward then SenderRefundReward else SenderRefund, tokens);
        Ok(Tx(my, swapContract, 0, data))
  }

  /** An input the decoded call may lack. */
  function InputData(decoded: seq<Token>, i: nat): Result<Token, SwapError> {
    if i < |decoded| then Ok(decoded[i]) else Err(Decoding)
  }

  /** A watcher spends on behalf of the taker, and always passes the reward arguments. */
  function WatcherSpendTx(coin: Coin, watcher: Address, status: Bytes -> PaymentState, payment: Tx, secret: Bytes,
                          taker: Address, reward: bool)
    : Result<Tx, SwapError>
  {
    if payment.to.None? then Err(InvalidArgument)
    else
      var d :- Decode(coin.hasRewards, coin.PaymentFunction(reward), payment.data);
      var i := RewardIndex(coin.coinType);
      var id :- InputData(d, 0);
      var amount :- if coin.coinType.Eth? then Ok(Uint(payment.value)) else InputData(d, 1);
      var target :- InputData(d, i);
      var onSpend :- InputData(d, i + 1);
      var rewardAmount :- InputData(d, i + 2);
      if status(id.bytes) != Sent then Err(WrongState)
      else
        var data :- Encode(coin.hasRewards, if reward then ReceiverSpendReward else ReceiverSpend,
                           [id, amount, FixedBytes(secret), AddressToken(coin.TokenAddress()),
                            AddressToken(payment.sender), AddressToken(taker), target, onSpend, rewardAmount]);
        Ok(Tx(watcher, payment.to, 0, data))
  }

  /** A watcher refunds to the taker who sent the payment. */
  function WatcherRefundTx(coin: Coin, watcher: Address, status: Bytes -> PaymentState, payment: Tx, taker: Address)
    : Result<Tx, SwapError>
  {
    if payment.to.None? then Err(InvalidArgument)
    else
      var d :- Decode(coin.hasRewards, coin.PaymentFunction(true), payment.data);
      if status(d[0].bytes) != Sent then Err(WrongState)
      else
        var (amount, secretHash, receiver) :=
          if coin.coinType.Eth? then (Uint(payment.value), d[2], d[1]) else (d[1], d[4], d[3]);
        var i := RewardIndex(coin.coinType);
        var data :- Encode(coin.hasRewards, SenderRefundReward,
                           [d[0], amount, secretHash, AddressToken(coin.TokenAddress()), AddressToken(taker), receiver,
                            d[i], d[i + 1], d[i + 2]]);
        Ok(Tx(watcher, payment.to, 0, data))
  }

  /** Decoding gives back what was encoded, and refuses the call of another function. */
  lemma EncodeDecode(hasRewards: bool, f: Function, g: Function, args: seq<Token>)
    requires Encode(hasRewards, f, args).Ok?
    ensures var call := Encode(hasRewards, f, args).value;
            Decode(hasRewards, g, call) == if f == g then Ok(args)
                                           else if g.IsReward() && !hasRewards then Err(UnknownFunction)
                                           else Err(Decoding)
  {
  }

  /** The call of a payment function, for the coin and as the reward flag says. */
  predicate IsPaymentCall(coin: Coin, reward: bool, call: Call) {
    && (reward ==> coin.hasRewards) && WellTyped(call.function_, call.args)
    && call.function_ == match coin.coinType
                         case Eth => if reward then EthPaymentReward else EthPayment
                         case Erc20(_) => if reward then Erc20PaymentReward else Erc20Payment
  }

  /** A spend call can be built exactly of a payment call that is in the state of a payment that was sent. */
  lemma SpendOkIff(coin: Coin, my: Address, status: Bytes -> PaymentState, payment: Tx, secret: Bytes,
                   swapContract: Option<Address>, reward: bool)
    ensures SpendTx(coin, my, status, payment, secret, swapContract, reward).Ok?
       <==> && swapContract.Some? && IsPaymentCall(coin, reward, payment.data)
            && status(payment.data.args[0].bytes) == Sent && |secret| == 32
  {
    if IsPaymentCall(coin, reward, payment.data) {
      PaymentArgsFit(coin, reward, payment.data);
    }
    var spend := SpendTx(coin, my, status, payment, secret, swapContract, reward);
    if spend.Ok? {
      var call := spend.value.data;
      assert call.args[2] == FixedBytes(secret) && call.function_.Params()[2] == Bytes32;
    }
  }

  lemma RefundOkIff(coin: Coin, my: Address, status: Bytes -> PaymentState, payment: Tx,
                    swapContract: Option<Address>, reward: bool)
    ensures RefundTx(coin, my, status, payment, swapContract, reward).Ok?
       <==> && swapContract.Some? && IsPaymentCall(coin, reward, payment.data)
            && status(payment.data.args[0].bytes) == Sent
  {
    if IsPaymentCall(coin, reward, payment.data) {
      PaymentArgsFit(coin, reward, payment.data);
    }
  }

  lemma PaymentArgsFit(coin: Coin, reward: bool, call: Call)
    requires IsPaymentCall(coin, reward, call)
    ensures Fits(call.args[0], Bytes32) && Fits(call.args[if coin.coinType.Eth? then 2 else 4], Bytes20)
    ensures Fits(call.args[if coin.coinType.Eth? then 1 else 3], AddressType)
    ensures coin.coinType.Erc20? ==> Fits(call.args[1], UintType)
    ensures reward ==> var i := RewardIndex(coin.coinType);
                       && Fits(call.args[i], UintType) && Fits(call.args[i + 1], BoolType)
                       && Fits(call.args[i + 2], UintType)
  {
    var params := call.function_.Params();
    assert params[0] == Bytes32 && params[if coin.coinType.Eth? then 2 else 4] == Bytes20;
  }

  /** Without reward functions in the contract interface, nothing with a reward can be built or decoded. */
  lemma RewardsNeedInterface(coin: Coin, my: Address, args: SendArgs, status: Bytes -> PaymentState, payment: Tx,
                             secret: Bytes, swapContract: Option<Address>, taker: Address)
    requires !coin.hasRewards
    ensures args.reward.Some? ==> PaymentTx(coin, my, args).Err?
    ensures SpendTx(coin, my, status, payment, secret, swapContract, true).Err?
    ensures RefundTx(coin, my, status, payment, swapContract, true).Err?
    ensures WatcherSpendTx(coin, my, status, payment, secret, taker, true).Err?
    ensures WatcherRefundTx(coin, my, status, payment, taker).Err?
  {
  }

  /** The arguments about a reward, as the payment has them. */
  function RewardArgs(coin: Coin, payment: Tx): seq<Token>
    requires RewardIndex(coin.coinType) <= |payment.data.args|
  {
    payment.data.args[if coin.coinType.Eth? then 4 else 6..]
  }

  /** The spend call, argument by argument: identifier, amount, secret, token, sender, and with a reward the spender. */
  lemma SpendCallIs(coin: Coin, sender: Address, args: SendArgs, status: Bytes -> PaymentState, my: Address,
                    secret: Bytes, swapContract: Option<Address>)
    requires PaymentTx(coin, sender, args).Ok?
    requires SpendTx(coin, my, status, PaymentTx(coin, sender, args).value, secret, swapContract, args.reward.Some?).Ok?
    ensures var payment := PaymentTx(coin, sender, args).value;
            var spend := SpendTx(coin, my, status, payment, secret, swapContract, args.reward.Some?).value;
            && spend.sender == my && spend.to == swapContract && spend.value == 0
            && |payment.data.args| >= RewardIndex(coin.coinType)
            && spend.data == Call(if args.reward.Some? then ReceiverSpendReward else ReceiverSpend,
                                  [FixedBytes(SwapId(coin.hashes, args.timeLock, args.secretHash)),
                                   if coin.coinType.Eth? then Uint(payment.value) else payment.data.args[1],
                                   FixedBytes(secret),
                                   AddressToken(if coin.coinType.Eth? then 0 else coin.coinType.tokenAddress),
                                   AddressToken(sender)]
                                  + if args.reward.Some? then [AddressToken(my)] + RewardArgs(coin, payment) else [])
  {
    var payment := PaymentTx(coin, sender, args).value;
    var a, i := payment.data.args, RewardIndex(coin.coinType);
    assert a[0] == FixedBytes(SwapId(coin.hashes, args.timeLock, args.secretHash));
    assert args.reward.Some? ==> a[i..] == [a[i], a[i + 1], a[i + 2]];
    assert args.reward.Some? ==>
      [AddressToken(my), a[i], a[i + 1], a[i + 2]] == [AddressToken(my)] + [a[i], a[i + 1], a[i + 2]];
  }

  /** The refund call: identifier, amount, secret hash, token, with a reward the refunder, and the receiver. */
  lemma RefundCallIs(coin: Coin, sender: Address, args: SendArgs, status: Bytes -> PaymentState, my: Address,
                     swapContract: Option<Address>)
    requires PaymentTx(coin, sender, args).Ok?
    requires RefundTx(coin, my, status, PaymentTx(coin, sender, args).value, swapContract, args.reward.Some?).Ok?
    ensures var payment := PaymentTx(coin, sender, args).value;
            var refund := RefundTx(coin, my, status, payment, swapContract, args.reward.Some?).value;
            && refund.sender == my && refund.to == swapContract && refund.value == 0
            && |payment.data.args| >= RewardIndex(coin.coinType) && args.receiver.Some?
            && refund.data == Call(if args.reward.Some? then SenderRefundReward else SenderRefund,
                                   [FixedBytes(SwapId(coin.hashes, args.timeLock, args.secretHash)),
                                    if coin.coinType.Eth? then Uint(payment.value) else payment.data.args[1],
                                    HashToken(coin.hashes, args.secretHash),
                                    AddressToken(if coin.coinType.Eth? then 0 else coin.coinType.tokenAddress)]
                                   + if args.reward.Some?
                                     then [AddressToken(my), AddressToken(args.receiver.value)]
                                          + RewardArgs(coin, payment)
                                     else [AddressToken(args.receiver.value)])
  {
    var payment := PaymentTx(coin, sender, args).value;
    var a, i := payment.data.args, RewardIndex(coin.coinType);
    var receiver := AddressToken(args.receiver.value);
    assert a[0] == FixedBytes(SwapId(coin.hashes, args.timeLock, args.secretHash));
    assert args.reward.Some? ==> a[i..] == [a[i], a[i + 1], a[i + 2]];
    assert args.reward.Some? ==>
      [AddressToken(my), receiver, a[i], a[i + 1], a[i + 2]]
      == [AddressToken(my), receiver] + [a[i], a[i + 1], a[i + 2]];
  }

  // ---------------------------------------------------------------------------------------
  // The swap contract
  // ---------------------------------------------------------------------------------------

  datatype RewardTerms = RewardTerms(target: nat, onSpend: bool, amount: nat)

  /** The tuple whose hash the contract keeps. */
  datatype Commitment = Commitment(
    receiver: Address, sender: Address, secretHash: Bytes, token: Address, amount: nat, reward: Option<RewardTerms>)

  datatype Payment = Payment(state: PaymentState, commitment: Commitment, lockTime: nat)

  type Payments = map<Bytes, Payment>

  function StatusOf(c: Payments, id: Bytes): PaymentState {
    if id in c then c[id].state else Uninitialized
  }

  function Terms(args: seq<Token>, i: nat): Option<RewardTerms>
    requires i + 2 < |args| && args[i].Uint? && args[i + 1].Bool? && args[i + 2].Uint?
  {
    Some(RewardTerms(args[i].uint, args[i + 1].flag, args[i + 2].uint))
  }

  /** The payment that a payment call commits to. */
  function Committed(tx: Tx): Payment
    requires WellTyped(tx.data.function_, tx.data.args)
    requires tx.data.function_ in {EthPayment, EthPaymentReward, Erc20Payment, Erc20PaymentReward}
  {
    var a := tx.data.args;
    var f := tx.data.function_;
    if f.EthPayment? then
      Payment(Sent, Commitment(a[1].address, tx.sender, a[2].bytes, ZERO_ADDRESS, tx.value, None), a[3].uint)
    else if f.EthPaymentReward? then
      Payment(Sent, Commitment(a[1].address, tx.sender, a[2].bytes, ZERO_ADDRESS, tx.value, Terms(a, 4)), a[3].uint)
    else if f.Erc20Payment? then
      Payment(Sent, Commitment(a[3].address, tx.sender, a[4].bytes, a[2].address, a[1].uint, None), a[5].uint)
    else
      Payment(Sent, Commitment(a[3].address, tx.sender, a[4].bytes, a[2].address, a[1].uint, Terms(a, 6)), a[5].uint)
  }

  /** The tuple that a spend or refund call presents. */
  function Presented(h: Hashes, tx: Tx): Commitment
    requires WellTyped(tx.data.function_, tx.data.args)
    requires tx.data.function_ in {ReceiverSpend, ReceiverSpendReward, SenderRefund, SenderRefundReward}
  {
    var a := tx.data.args;
    var f := tx.data.function_;
    if f.ReceiverSpend? then
      Commitment(tx.sender, a[4].address, h.DHash160(a[2].bytes), a[3].address, a[1].uint, None)
    else if f.ReceiverSpendReward? then
      Commitment(a[5].address, a[4].address, h.DHash160(a[2].bytes), a[3].address, a[1].uint, Terms(a, 6))
    else if f.SenderRefund? then
      Commitment(a[4].address, tx.sender, a[2].bytes, a[3].address, a[1].uint, None)
    else
      Commitment(a[5].address, a[4].address, a[2].bytes, a[3].address, a[1].uint, Terms(a, 6))
  }

  /** Executes a call at time `now`; `None` when the contract reverts. */
  function Execute(h: Hashes, c: Payments, tx: Tx, now: nat): Option<Payments> {
    var f := tx.data.function_;
    if !WellTyped(f, tx.data.args) then None
    else
      var id := tx.data.args[0].bytes;
      if f in {EthPayment, EthPaymentReward, Erc20Payment, Erc20PaymentReward} then
        if StatusOf(c, id) == Uninitialized then Some(c[id := Committed(tx)]) else None
      else
        if StatusOf(c, id) != Sent || Presented(h, tx) != c[id].commitment then None
        else if f.ReceiverSpend? || f.ReceiverSpendReward? then Some(c[id := c[id].(state := Spent)])
        else if c[id].lockTime <= now then Some(c[id := c[id].(state := Refunded)])
        else None
  }

  /** A payment that was built by the code, and the contract after it took the payment. */
  predicate Paid(coin: Coin, sender: Address, args: SendArgs, c: Payments) {
    && PaymentTx(coin, sender, args).Ok?
    && var id := SwapId(coin.hashes, args.timeLock, args.secretHash);
       id in c && c[id] == Committed(PaymentTx(coin, sender, args).value)
  }

  /** How spend and refund calls read the state of a payment. */
  function StatusIn(c: Payments): Bytes -> PaymentState {
    id => StatusOf(c, id)
  }

  /** The call of a party to the contract is for the payment and presents the tuple, and sends nothing along. */
  predicate Presents(coin: Coin, my: Address, to: Option<Address>, call: Result<Tx, SwapError>, f: Function, id: Bytes,
                     tuple: Commitment)
    requires f in {ReceiverSpend, ReceiverSpendReward, SenderRefund, SenderRefundReward}
  {
    && call.Ok? && call.value.sender == my && call.value.to == to && call.value.value == 0
    && call.value.data.function_ == f && WellTyped(f, call.value.data.args)
    && call.value.data.args[0] == FixedBytes(id)
    && Presented(coin.hashes, call.value) == tuple
  }

  lemma EthSpendPresents(coin: Coin, sender: Address, args: SendArgs, c: Payments, my: Address, secret: Bytes)
    requires Paid(coin, sender, args, c) && |secret| == 32 && coin.coinType.Eth?
    ensures var payment := PaymentTx(coin, sender, args).value;
            var id := SwapId(coin.hashes, args.timeLock, args.secretHash);
            Presents(coin, my, args.swapContract,
                     SpendTx(coin, my, StatusIn(c), payment, secret, args.swapContract, args.reward.Some?),
                     if args.reward.Some? then ReceiverSpendReward else ReceiverSpend, id,
                     c[id].commitment.(receiver := my, secretHash := coin.hashes.DHash160(secret)))
  {
    var payment := PaymentTx(coin, sender, args).value;
    assert payment.data.args[0] == FixedBytes(SwapId(coin.hashes, args.timeLock, args.secretHash));
    assert Decode(coin.hasRewards, coin.PaymentFunction(args.reward.Some?), payment.data) == Ok(payment.data.args);
  }

  lemma Erc20SpendPresents(coin: Coin, sender: Address, args: SendArgs, c: Payments, my: Address, secret: Bytes)
    requires Paid(coin, sender, args, c) && |secret| == 32 && coin.coinType.Erc20?
    ensures var payment := PaymentTx(coin, sender, args).value;
            var id := SwapId(coin.hashes, args.timeLock, args.secretHash);
            Presents(coin, my, args.swapContract,
                     SpendTx(coin, my, StatusIn(c), payment, secret, args.swapContract, args.reward.Some?),
                     if args.reward.Some? then ReceiverSpendReward else ReceiverSpend, id,
                     c[id].commitment.(receiver := my, secretHash := coin.hashes.DHash160(secret)))
  {
    var payment := PaymentTx(coin, sender, args).value;
    assert payment.data.args[0] == FixedBytes(SwapId(coin.hashes, args.timeLock, args.secretHash));
    assert Decode(coin.hasRewards, coin.PaymentFunction(args.reward.Some?), payment.data) == Ok(payment.data.args);
  }

  /**
   The call rebuilt from a payment presents the committed tuple again, with the spender as the
   receiver and the hash of the secret.
   */
  lemma SpendPresentsCommitment(coin: Coin, sender: Address, args: SendArgs, c: Payments, my: Address, secret: Bytes)
    requires Paid(coin, sender, args, c) && |secret| == 32
    ensures var payment := PaymentTx(coin, sender, args).value;
            var id := SwapId(coin.hashes, args.timeLock, args.secretHash);
            Presents(coin, my, args.swapContract,
                     SpendTx(coin, my, StatusIn(c), payment, secret, args.swapContract, args.reward.Some?),
                     if args.reward.Some? then ReceiverSpendReward else ReceiverSpend, id,
                     c[id].commitment.(receiver := my, secretHash := coin.hashes.DHash160(secret)))
  {
    if coin.coinType.Eth? {
      EthSpendPresents(coin, sender, args, c, my, secret);
    } else {
      Erc20SpendPresents(coin, sender, args, c, my, secret);
    }
  }

  lemma EthRefundPresents(coin: Coin, sender: Address, args: SendArgs, c: Payments, my: Address)
    requires Paid(coin, sender, args, c) && coin.coinType.Eth?
    ensures var payment := PaymentTx(coin, sender, args).value;
            var id := SwapId(coin.hashes, args.timeLock, args.secretHash);
            Presents(coin, my, args.swapContract,
                     RefundTx(coin, my, StatusIn(c), payment, args.swapContract, args.reward.Some?),
                     if args.reward.Some? then SenderRefundReward else SenderRefund, id,
                     c[id].commitment.(sender := my))
  {
    var payment := PaymentTx(coin, sender, args).value;
    assert payment.data.args[0] == FixedBytes(SwapId(coin.hashes, args.timeLock, args.secretHash));
    assert Decode(coin.hasRewards, coin.PaymentFunction(args.reward.Some?), payment.data) == Ok(payment.data.args);
  }

  lemma Erc20RefundPresents(coin: Coin, sender: Address, args: SendArgs, c: Payments, my: Address)
    requires Paid(coin, sender, args, c) && coin.coinType.Erc20?
    ensures var payment := PaymentTx(coin, sender, args).value;
            var id := SwapId(coin.hashes, args.timeLock, args.secretHash);
            Presents(coin, my, args.swapContract,
                     RefundTx(coin, my, StatusIn(c), payment, args.swapContract, args.reward.Some?),
                     if args.reward.Some? then SenderRefundReward else SenderRefund, id,
                     c[id].commitment.(sender := my))
  {
    var payment := PaymentTx(coin, sender, args).value;
    assert payment.data.args[0] == FixedBytes(SwapId(coin.hashes, args.timeLock, args.secretHash));
    assert Decode(coin.hasRewards, coin.PaymentFunction(args.reward.Some?), payment.data) == Ok(payment.data.args);
  }

  /** The refund call presents the committed tuple with the refunder as the sender. */
  lemma RefundPresentsCommitment(coin: Coin, sender: Address, args: SendArgs, c: Payments, my: Address)
    requires Paid(coin, sender, args, c)
    ensures var payment := PaymentTx(coin, sender, args).value;
            var id := SwapId(coin.hashes, args.timeLock, args.secretHash);
            Presents(coin, my, args.swapContract,
                     RefundTx(coin, my, StatusIn(c), payment, args.swapContract, args.reward.Some?),
                     if args.reward.Some? then SenderRefundReward else SenderRefund, id,
                     c[id].commitment.(sender := my))
  {
    if coin.coinType.Eth? {
      EthRefundPresents(coin, sender, args, c, my);
    } else {
      Erc20RefundPresents(coin, sender, args, c, my);
    }
  }

  /** What the payment committed to. */
  lemma PaymentCommits(coin: Coin, sender: Address, args: SendArgs)
    requires PaymentTx(coin, sender, args).Ok?
    ensures var tx := PaymentTx(coin, sender, args).value;
            var p := Committed(tx);
            && p.state == Sent && p.lockTime == args.timeLock
            && p.commitment.sender == sender && Some(p.commitment.receiver) == args.receiver
            && p.commitment.secretHash == ContractSecretHash(coin.hashes, args.secretHash)
            && p.commitment.token == coin.TokenAddress()
            && (if coin.coinType.Eth? then p.commitment.amount == tx.value
                else tx.data.args[1] == Uint(p.commitment.amount))
            && (args.reward.None? ==> p.commitment.reward == None)
            && (args.reward.Some? ==>
                  && p.commitment.reward.Some? && p.commitment.reward.value.target == args.reward.value.target.AsU8()
                  && p.commitment.reward.value.onSpend == args.reward.value.onSpend
                  && PaidReward(coin, args.reward.value) == Ok(p.commitment.reward.value.amount))
  {
  }

  /** A spend works exactly with the secret and for the receiver. */
  lemma SpendExecutesIff(coin: Coin, sender: Address, args: SendArgs, c: Payments, my: Address, secret: Bytes, now: nat)
    requires Paid(coin, sender, args, c) && |secret| == 32
    ensures var payment := PaymentTx(coin, sender, args).value;
            var id := SwapId(coin.hashes, args.timeLock, args.secretHash);
            var spend := SpendTx(coin, my, StatusIn(c), payment, secret, args.swapContract, args.reward.Some?);
            && spend.Ok?
            && Execute(coin.hashes, c, spend.value, now)
               == if Some(my) == args.receiver
                     && coin.hashes.DHash160(secret) == ContractSecretHash(coin.hashes, args.secretHash)
                  then Some(c[id := c[id].(state := Spent)]) else None
  {
    PaymentCommits(coin, sender, args);
    SpendPresentsCommitment(coin, sender, args, c, my, secret);
  }

  /** A refund works exactly for the sender and after the lock time. */
  lemma RefundExecutesIff(coin: Coin, sender: Address, args: SendArgs, c: Payments, my: Address, now: nat)
    requires Paid(coin, sender, args, c)
    ensures var payment := PaymentTx(coin, sender, args).value;
            var id := SwapId(coin.hashes, args.timeLock, args.secretHash);
            var refund := RefundTx(coin, my, StatusIn(c), payment, args.swapContract, args.reward.Some?);
            && refund.Ok?
            && Execute(coin.hashes, c, refund.value, now)
               == if my == sender && args.timeLock <= now then Some(c[id := c[id].(state := Refunded)]) else None
  {
    PaymentCommits(coin, sender, args);
    RefundPresentsCommitment(coin, sender, args, c, my);
  }

  /** Either hash of the secret that the swap protocol uses lets the receiver spend with it. */
  lemma SecretOpensItsHash(h: Hashes, secret: Bytes, secretHash: Bytes)
    requires h.WellSized()
    requires secretHash == h.sha256(secret) || secretHash == h.DHash160(secret)
    ensures h.DHash160(secret) == ContractSecretHash(h, secretHash)
  {
  }

  /** Whoever spends or refunds has to know whether the payment has a reward. */
  lemma RewardFlagMustMatch(coin: Coin, sender: Address, args: SendArgs, my: Address, status: Bytes -> PaymentState,
                            secret: Bytes, swapContract: Option<Address>, reward: bool)
    requires PaymentTx(coin, sender, args).Ok? && reward != args.reward.Some?
    ensures var payment := PaymentTx(coin, sender, args).value;
            && SpendTx(coin, my, status, payment, secret, swapContract, reward).Err?
            && RefundTx(coin, my, status, payment, swapContract, reward).Err?
  {
  }

  /** For the same party, a watcher makes the call that the party would make itself. */
  lemma WatcherMakesTheSameCalls(coin: Coin, watcher: Address, status: Bytes -> PaymentState, payment: Tx,
                                 secret: Bytes, taker: Address)
    requires payment.to.Some?
    ensures var watched := WatcherSpendTx(coin, watcher, status, payment, secret, taker, true);
            var direct := SpendTx(coin, taker, status, payment, secret, payment.to, true);
            && watched.Ok? == direct.Ok?
            && (watched.Ok? ==> watched.value == direct.value.(sender := watcher))
    ensures var watched := WatcherRefundTx(coin, watcher, status, payment, taker);
            var direct := RefundTx(coin, taker, status, payment, payment.to, true);
            && watched.Ok? == direct.Ok?
            && (watched.Ok? ==> watched.value == direct.value.(sender := watcher))
  {
    var d := Decode(coin.hasRewards, coin.PaymentFunction(true), payment.data);
    if d.Ok? && status(d.value[0].bytes) == Sent {
      var a := d.value;
      var i := RewardIndex(coin.coinType);
      var amount := if coin.coinType.Eth? then Uint(payment.value) else a[1];
      var (secretHash, receiver) := if coin.coinType.Eth? then (a[2], a[1]) else (a[4], a[3]);
      var token := AddressToken(coin.TokenAddress());
      assert [a[0], amount, FixedBytes(secret), token, AddressToken(payment.sender)]
             + [AddressToken(taker), a[i], a[i + 1], a[i + 2]]
          == [a[0], amount, FixedBytes(secret), token, AddressToken(payment.sender), AddressToken(taker),
              a[i], a[i + 1], a[i + 2]];
      assert [a[0], amount, secretHash, token] + [AddressToken(taker), receiver, a[i], a[i + 1], a[i + 2]]
          == [a[0], amount, secretHash, token, AddressToken(taker), receiver, a[i], a[i + 1], a[i + 2]];
    }
  }

  /** Told that there is no reward, a watcher never gets as far as a call. */
  lemma WatcherNeedsReward(coin: Coin, watcher: Address, status: Bytes -> PaymentState, payment: Tx, secret: Bytes,
                           taker: Address)
    ensures WatcherSpendTx(coin, watcher, status, payment, secret, taker, false).Err?
  {
  }

  /** Who sends a call with a reward does not matter to the contract. */
  lemma RewardCallsByAnyone(h: Hashes, c: Payments, tx: Tx, other: Address, now: nat)
    requires tx.data.function_ in {ReceiverSpendReward, SenderRefundReward}
    ensures Execute(h, c, tx.(sender := other), now) == Execute(h, c, tx, now)
  {
  }

  /**
   A watcher's spend of a reward payment works exactly with the secret and for the receiver, whoever
   the watcher is.
   */
  lemma WatcherSpendExecutesIff(coin: Coin, sender: Address, args: SendArgs, c: Payments, watcher: Address,
                                taker: Address, secret: Bytes, now: nat)
    requires Paid(coin, sender, args, c) && |secret| == 32 && args.reward.Some?
    ensures var payment := PaymentTx(coin, sender, args).value;
            var id := SwapId(coin.hashes, args.timeLock, args.secretHash);
            var spend := WatcherSpendTx(coin, watcher, StatusIn(c), payment, secret, taker, true);
            && spend.Ok?
            && Execute(coin.hashes, c, spend.value, now)
               == if Some(taker) == args.receiver
                     && coin.hashes.DHash160(secret) == ContractSecretHash(coin.hashes, args.secretHash)
                  then Some(c[id := c[id].(state := Spent)]) else None
  {
    var payment := PaymentTx(coin, sender, args).value;
    SpendPresentsCommitment(coin, sender, args, c, taker, secret);
    SpendExecutesIff(coin, sender, args, c, taker, secret, now);
    WatcherMakesTheSameCalls(coin, watcher, StatusIn(c), payment, secret, taker);
    var direct := SpendTx(coin, taker, StatusIn(c), payment, secret, payment.to, true).value;
    RewardCallsByAnyone(coin.hashes, c, direct, watcher, now);
  }

  /** And the refund works exactly for the sender and from the lock time on. */
  lemma WatcherRefundExecutesIff(coin: Coin, sender: Address, args: SendArgs, c: Payments, watcher: Address,
                                 taker: Address, now: nat)
    requires Paid(coin, sender, args, c) && args.reward.Some?
    ensures var payment := PaymentTx(coin, sender, args).value;
            var id := SwapId(coin.hashes, args.timeLock, args.secretHash);
            var refund := WatcherRefundTx(coin, watcher, StatusIn(c), payment, taker);
            && refund.Ok?
            && Execute(coin.hashes, c, refund.value, now)
               == if taker == sender && args.timeLock <= now then Some(c[id := c[id].(state := Refunded)]) else None
  {
    var payment := PaymentTx(coin, sender, args).value;
    RefundPresentsCommitment(coin, sender, args, c, taker);
    RefundExecutesIff(coin, sender, args, c, taker, now);
    WatcherMakesTheSameCalls(coin, watcher, StatusIn(c), payment, [], taker);
    var direct := RefundTx(coin, taker, StatusIn(c), payment, payment.to, true).value;
    RewardCallsByAnyone(coin.hashes, c, direct, watcher, now);
  }

  // ---------------------------------------------------------------------------------------
  // The life of a payment
  // ---------------------------------------------------------------------------------------

  /** A call that arrives at the contract, and when. */
  datatype Arrival = Arrival(tx: Tx, now: nat)

  function Next(h: Hashes, c: Payments, a: Arrival): Payments {
    var r := Execute(h, c, a.tx, a.now);
    if r.Some? then r.value else c
  }

  function Run(h: Hashes, c: Payments, arrivals: seq<Arrival>): Payments
    decreases |arrivals|
  {
    if arrivals == [] then c else Run(h, Next(h, c, arrivals[0]), arrivals[1..])
  }

  /** How many of the calls spend or refund the payment `id`. */
  function Settlements(h: Hashes, c: Payments, arrivals: seq<Arrival>, id: Bytes): nat
    decreases |arrivals|
  {
    if arrivals == [] then 0
    else
      var c' := Next(h, c, arrivals[0]);
      (if StatusOf(c, id) == Sent && StatusOf(c', id) != Sent then 1 else 0) + Settlements(h, c', arrivals[1..], id)
  }

  /** Whatever calls arrive, a payment keeps its commitment and is spent or refunded at most once. */
  lemma {:induction false} PaymentIsSettledOnce(h: Hashes, c: Payments, arrivals: seq<Arrival>, id: Bytes)
    ensures var c' := Run(h, c, arrivals);
            && (StatusOf(c, id) != Uninitialized ==>
                  id in c' && c'[id].commitment == c[id].commitment && c'[id].lockTime == c[id].lockTime)
            && Settlements(h, c, arrivals, id) <= 1
            && (StatusOf(c, id) in {Spent, Refunded} ==>
                  StatusOf(c', id) == StatusOf(c, id) && Settlements(h, c, arrivals, id) == 0)
    decreases |arrivals|
  {
    if arrivals != [] {
      PaymentIsSettledOnce(h, Next(h, c, arrivals[0]), arrivals[1..], id);
    }
  }
}
