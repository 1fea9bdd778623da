/** The JSON-RPC error object and the fixed catalogue of error codes
    (section 5.1 of the JSON-RPC 2.0 specification, plus two custom codes). */
module Errors {
  import opened Wrappers
  import opened Json

  type ErrorCode = int

  const ParseError: ErrorCode := -32700
  const InvalidRequest: ErrorCode := -32600
  const MethodNotFound: ErrorCode := -32601
  const InvalidParams: ErrorCode := -32602
  /** Written `errCodeInternal` in the dispatcher and `ErrCodeInternal` in the
      catalogue; both denote this one constant. */
  const Internal: ErrorCode := -32603
  const InvalidRpcVersion: ErrorCode := -32001
  const ExecutionTimeout: ErrorCode := -32002

  /** Code, short message and optional diagnostic data. */
  datatype Error = Error(code: ErrorCode, message: string, data: Option<Value>)

  /** The catalogue as a table: the reference the message lookup must agree with. */
  const Catalogue: map<ErrorCode, string> := map[
    ParseError := "Parse error",
    InvalidRequest := "Invalid Request",
    MethodNotFound := "Method not found",
    InvalidParams := "Invalid method parameter(s)",
    Internal := "Internal error",
    InvalidRpcVersion := "JSON RPC Version must be 2.0",
    ExecutionTimeout := "Method execution timeout"
  ]

  /** The canonical message of a code: the switch without a default, so a
      code outside the catalogue leaves the message empty. */
  function CanonicalMessage(code: ErrorCode): (m: string)
    ensures code in Catalogue ==> m == Catalogue[code]
    ensures code !in Catalogue <==> m == ""
  {
    if code == ParseError then "Parse error"
    else if code == InvalidRequest then "Invalid Request"
    else if code == MethodNotFound then "Method not found"
    else if code == InvalidParams then "Invalid method parameter(s)"
    else if code == Internal then "Internal error"
    else if code == InvalidRpcVersion then "JSON RPC Version must be 2.0"
    else if code == ExecutionTimeout then "Method execution timeout"
    else ""
  }

  /** The library's own error constructor: the code and data are kept as
      given and the message comes from the catalogue. */
  function Catalogued(code: ErrorCode, data: Option<Value>): (e: Error)
    ensures e.code == code && e.data == data
    ensures code in Catalogue ==> e.message == Catalogue[code]
    ensures code !in Catalogue ==> e.message == ""
  {
    Error(code, CanonicalMessage(code), data)
  }

  /** The caller-facing constructor: code and message verbatim, no data. */
  function Custom(code: ErrorCode, message: string): (e: Error)
    ensures e.code == code && e.message == message && e.data.None?
  {
    Error(code, message, None)
  }

  /** The seven codes are pairwise distinct, so the catalogue has seven
      entries, and no two codes share a message: code -> message is injective. */
  lemma CatalogueIsInjective()
    ensures |Catalogue| == 7
    ensures forall c1, c2 :: c1 in Catalogue && c2 in Catalogue && c1 != c2 ==> Catalogue[c1] != Catalogue[c2]
  {
  }

  /** Every catalogued code has a non-empty message, so an empty message
      identifies exactly the codes outside the catalogue. */
  lemma CatalogueMessagesNonEmpty(code: ErrorCode)
    ensures code in Catalogue <==> Catalogued(code, None).message != ""
  {
  }

  /** The caller-facing constructor given the canonical message builds the
      same error as the catalogue constructor with no data. */
  lemma CustomAgreesWithCatalogue(code: ErrorCode)
    requires code in Catalogue
    ensures Custom(code, Catalogue[code]) == Catalogued(code, None)
  {
  }
}
