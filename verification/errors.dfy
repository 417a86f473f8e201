/**
 * The closed set of execution errors and their stable one-byte codes, which
 * are written into committed transaction receipts.
 */
module Errors {
  import opened Wrappers
  import opened DataLayout

  datatype ErrorKind =
    | EarlyBreeding
    | EarlyIssue
    | InsufficientFunds
    | AccessViolation
    | SelfBreeding
    | UserAlreadyRegistered
    | UserIsNotRegistered
    | OwlNotFound
    | OwlNotOwned
    | OwlAlreadyAuctioned
    | AuctionNotFound
    | AuctionClosed
    | BidTooLow
    | UnauthorizedTransaction
    | NoSelfBidding

  /** The raw code of an error kind. */
  function AsCode(e: ErrorKind): (c: u8)
    ensures 1 <= c <= 15
  {
    match e
    case EarlyBreeding => 1
    case EarlyIssue => 2
    case InsufficientFunds => 3
    case AccessViolation => 4
    case SelfBreeding => 5
    case UserAlreadyRegistered => 6
    case UserIsNotRegistered => 7
    case OwlNotFound => 8
    case OwlNotOwned => 9
    case OwlAlreadyAuctioned => 10
    case AuctionNotFound => 11
    case AuctionClosed => 12
    case BidTooLow => 13
    case UnauthorizedTransaction => 14
    case NoSelfBidding => 15
  }

  /** The derived conversion back from a raw code; codes outside 1..15 name no kind. */
  function FromCode(c: u8): (r: Option<ErrorKind>)
    ensures r.Some? <==> 1 <= c <= 15
  {
    if c == 1 then Some(EarlyBreeding)
    else if c == 2 then Some(EarlyIssue)
    else if c == 3 then Some(InsufficientFunds)
    else if c == 4 then Some(AccessViolation)
    else if c == 5 then Some(SelfBreeding)
    else if c == 6 then Some(UserAlreadyRegistered)
    else if c == 7 then Some(UserIsNotRegistered)
    else if c == 8 then Some(OwlNotFound)
    else if c == 9 then Some(OwlNotOwned)
    else if c == 10 then Some(OwlAlreadyAuctioned)
    else if c == 11 then Some(AuctionNotFound)
    else if c == 12 then Some(AuctionClosed)
    else if c == 13 then Some(BidTooLow)
    else if c == 14 then Some(UnauthorizedTransaction)
    else if c == 15 then Some(NoSelfBidding)
    else None
  }

  /** Decoding the code of a kind gives the kind back. */
  lemma FromCodeAsCode(e: ErrorKind)
    ensures FromCode(AsCode(e)) == Some(e)
  {
  }

  /** Every code in 1..15 is the code of exactly the kind it decodes to. */
  lemma AsCodeFromCode(c: u8)
    requires 1 <= c <= 15
    ensures FromCode(c).Some? && AsCode(FromCode(c).value) == c
  {
  }

  /** No two kinds share a code. */
  lemma AsCodeInjective(e1: ErrorKind, e2: ErrorKind)
    ensures AsCode(e1) == AsCode(e2) <==> e1 == e2
  {
    FromCodeAsCode(e1);
    FromCodeAsCode(e2);
  }

  /** The codes this service itself emits. */
  lemma CoreErrorCodes()
    ensures AsCode(InsufficientFunds) == 3
    ensures AsCode(UserAlreadyRegistered) == 6
    ensures AsCode(UserIsNotRegistered) == 7
  {
  }

  /** The display text of an error kind. */
  function Description(e: ErrorKind): (text: string)
    ensures |text| > 0
  {
    match e
    case EarlyBreeding => "Too early for breeding."
    case EarlyIssue => "Too early for balance refill."
    case InsufficientFunds => "Insufficient funds."
    case AccessViolation => "Not your property."
    case SelfBreeding => "You need two different owls."
    case UserAlreadyRegistered => "User is already registered"
    case UserIsNotRegistered => "Participant is not registered"
    case OwlNotFound => "Owl does not exist"
    case OwlNotOwned => "You do not own of the item"
    case OwlAlreadyAuctioned => "Owl is already auctioned"
    case AuctionNotFound => "Auction does not exist"
    case AuctionClosed => "Auction is closed"
    case BidTooLow => "Bid is below the current highest bid"
    case UnauthorizedTransaction => "Transaction is not authorized."
    case NoSelfBidding => "You may not bid on your own item."
  }

  /**
   * The only kind whose display text has this length and first character, if
   * any. Length and first character already tell the fifteen texts apart. This
   * table lets `FromDescription` compare a text with one candidate's text
   * instead of with all fifteen string literals, which the solver cannot do
   * within its resource limit. A change to a text in `Description` must be
   * repeated here; otherwise `FromDescriptionDescription` fails to verify.
   */
  function KindOfShape(length: nat, first: char): Option<ErrorKind>
  {
    if length == 17 then Some(AuctionClosed)
    else if length == 18 && first == 'N' then Some(AccessViolation)
    else if length == 18 && first == 'O' then Some(OwlNotFound)
    else if length == 19 then Some(InsufficientFunds)
    else if length == 22 then Some(AuctionNotFound)
    else if length == 23 then Some(EarlyBreeding)
    else if length == 24 then Some(OwlAlreadyAuctioned)
    else if length == 26 && first == 'U' then Some(UserAlreadyRegistered)
    else if length == 26 && first == 'Y' then Some(OwlNotOwned)
    else if length == 28 then Some(SelfBreeding)
    else if length == 29 && first == 'P' then Some(UserIsNotRegistered)
    else if length == 29 && first == 'T' then Some(EarlyIssue)
    else if length == 30 then Some(UnauthorizedTransaction)
    else if length == 33 then Some(NoSelfBidding)
    else if length == 36 then Some(BidTooLow)
    else None
  }

  /**
   * Recovers the kind from a display text; texts that are no kind's give `None`.
   * The service itself never parses descriptions; this is the partner used to
   * prove that the display texts are distinct.
   */
  function FromDescription(text: string): (r: Option<ErrorKind>)
    ensures r.Some? ==> Description(r.value) == text
  {
    if |text| == 0 then None
    else
      match KindOfShape(|text|, text[0])
      case Some(e) => if Description(e) == text then Some(e) else None
      case None => None
  }

  /** Decoding the display text of a kind gives the kind back. */
  lemma FromDescriptionDescription(e: ErrorKind)
    ensures FromDescription(Description(e)) == Some(e)
  {
    match e
    case EarlyBreeding =>
    case EarlyIssue =>
    case InsufficientFunds =>
    case AccessViolation =>
    case SelfBreeding =>
    case UserAlreadyRegistered =>
    case UserIsNotRegistered =>
    case OwlNotFound =>
    case OwlNotOwned =>
    case OwlAlreadyAuctioned =>
    case AuctionNotFound =>
    case AuctionClosed =>
    case BidTooLow =>
    case UnauthorizedTransaction =>
    case NoSelfBidding =>
  }

  /** No two kinds share a display text, so a receipt's description also identifies its kind. */
  lemma DescriptionInjective(e1: ErrorKind, e2: ErrorKind)
    ensures Description(e1) == Description(e2) <==> e1 == e2
  {
    FromDescriptionDescription(e1);
    FromDescriptionDescription(e2);
  }

  /** The error recorded in a receipt: a raw code and a description. */
  datatype ExecutionError = ExecutionError(code: u8, description: string)

  /** Conversion of an error kind into the receipt's error. */
  function ToExecutionError(e: ErrorKind): (x: ExecutionError)
    ensures x.code == AsCode(e)
    ensures FromCode(x.code) == Some(e)
    ensures x.description == Description(e)
  {
    ExecutionError(AsCode(e), Description(e))
  }
}
