/**
 * The response objects the services return: SuccessResponse and the error
 * classes (AuthenticationError, AuthorizationError, ConflictError,
 * NotFoundError, ValidationError, InternalServerError), and the plain record
 * (message, status, success, code, data) that they all are at run time.
 *
 * Message texts and the numeric statuses/codes of the error classes are
 * constants outside this model, so messages are named by their key and the
 * statuses/codes are a parameter (Codes).
 */
module Responses {
  import opened Wrappers

  /** The message keys the core uses; the texts themselves are not part of this model. */
  datatype Message =
    | SignatureMismatch
    | WalletExists
    | UserWalletCreated
    | NoResource
    | NoResourceFound
    | NoNegativePageValue
    | TransactionHistoryFetched
    | UserHasTransactionPin
    | UserTransactionPinSet
    | NoTransactionPin
    | IncorrectTransactionPin
    | TransactionPinVerified
    | IncorrectPassword
      /** the minimum-withdrawal text with its `<AMOUNT>` placeholder replaced */
    | MinimumWithdrawal(amount: string)
    | InsufficientFund
    | ProcessingWithdrawal
    | ProcessingTransaction
    | TransactionNotFound
    | MoneyWithdrawn
    | NgnTransactionSuccessful
    | WithdrawalFailed
    | InvoiceNotFound
      /** the payment-received text with its `<USER>` placeholder replaced */
    | PaymentReceived(user: string)
    | RequiredAuthorization
    | InvalidAuthorization
    | InvalidUser
    | RecordAlreadyExist
    | RecordDoesNotExist
    | ClientNotFound
    | ClientExists
    | ClientCreated
    | ClientFetched
    | ClientUpdated
    | ClientDeleted
    | InvoiceCreated
    | InvoiceFetched
    | InvoiceUpdated
    | InvoiceStatistics
    | InvoiceDeleted
    | InvoiceSent
    | InvoiceMarkedAsPaid
    | InvoiceSearchResult
      /** a message written out literally in the source */
    | Literal(text: string)

  /** Which error class a failure is an instance of. */
  datatype ErrorKind = Authentication | Authorization | Conflict | NotFound | Validation | Internal

  /** A service's answer: a SuccessResponse carrying optional data, or an error object. */
  datatype Reply<D> =
    | Success(message: Message, data: Option<D>)
    | Failure(kind: ErrorKind, message: Message)

  /** A reply without data. */
  type Ack = Reply<()>

  /** `new InternalServerError()` with its default message. */
  function InternalError<D>(): Reply<D> {
    Failure(Internal, Literal("An error occurred. Try again later"))
  }

  /** The response object as a plain record, the shape the response handler destructures. */
  datatype ApiResponse<D> = ApiResponse(
    status: Option<int>,
    success: Option<bool>,
    code: Option<string>,
    message: Message,
    data: Option<D>)

  /**
   * STANDARD.SUCCESS and the ErrorsConstants statuses and codes per error class,
   * which are not part of this model.
   */
  datatype Codes = Codes(standardSuccess: int, status: ErrorKind -> int, code: ErrorKind -> string)

  /**
   * The record a reply object is. A SuccessResponse never assigns `success`,
   * so it is undefined; every error class assigns `success: false` and has no data.
   */
  function AsApiResponse<D>(r: Reply<D>, codes: Codes): (a: ApiResponse<D>)
    ensures a.message == r.message && a.status.Some? && a.code.Some?
    ensures r.Success? ==> a.success.None? && a.data == r.data && a.code == Some("Success")
    ensures r.Failure? ==> a.success == Some(false) && a.data.None?
  {
    match r
    case Success(m, d) => ApiResponse(Some(codes.standardSuccess), None, Some("Success"), m, d)
    case Failure(k, m) => ApiResponse(Some(codes.status(k)), Some(false), Some(codes.code(k)), m, None)
  }
}
