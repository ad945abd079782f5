/** The state of one contract write and its receipt, as the faucet and game forms derive it. */
module Transaction {
  import opened Wrappers

  datatype WriteStatus = Idle | Pending | Succeeded | Errored

  /** A write's status, the hash it returned and the message of its error, if any. */
  datatype WriteState = WriteState(status: WriteStatus, hash: Option<string>, error: Option<string>)

  const IdleWrite: WriteState := WriteState(Idle, None, None)

  /** The hash whose receipt is awaited: only a pending or successful write has one. */
  function TxHash(w: WriteState): (h: Option<string>)
    ensures h.Some? ==> (w.status == Pending || w.status == Succeeded) && h == w.hash
    ensures (w.status == Pending || w.status == Succeeded) ==> h == w.hash
  {
    if w.status == Pending || w.status == Succeeded then w.hash else None
  }

  /** `isPending`: the write is pending, or a hash exists and its receipt is still awaited. */
  function IsPending(w: WriteState, waitingReceipt: bool): (p: bool)
    ensures w.status == Pending ==> p
    ensures w.status == Idle || w.status == Errored ==> !p
    ensures w.status == Succeeded ==> (p <==> w.hash.Some? && waitingReceipt)
  {
    w.status == Pending || (TxHash(w).Some? && waitingReceipt)
  }

  /** `errorMessage`: the write's error first, else the receipt's. */
  function ErrorMessage(w: WriteState, receiptError: Option<string>): (m: Option<string>)
    ensures w.error.Some? ==> m == w.error
    ensures w.error.None? ==> m == receiptError
  {
    if w.error.Some? then w.error else receiptError
  }

  /** `showError`: the write failed or the receipt did, and there is a non-empty message. */
  function ShowError(w: WriteState, receiptError: Option<string>): (show: bool)
    ensures show ==> ErrorMessage(w, receiptError).Some? && ErrorMessage(w, receiptError).value != ""
    ensures show ==> w.status == Errored || receiptError.Some?
    ensures ((w.status == Errored || receiptError.Some?) &&
             ErrorMessage(w, receiptError).Some? && ErrorMessage(w, receiptError).value != "") ==> show
    ensures show <==>
              ((w.status == Errored || receiptError.Some?) &&
               ((w.error.Some? && w.error.value != "") ||
                (w.error.None? && receiptError.Some? && receiptError.value != "")))
  {
    var m := ErrorMessage(w, receiptError);
    (w.status == Errored || receiptError.Some?) && m.Some? && m.value != ""
  }

  /** While a write is pending, the only error that can be shown is the receipt's. */
  lemma PendingShowsOnlyReceiptError(w: WriteState, waitingReceipt: bool, receiptError: Option<string>)
    requires IsPending(w, waitingReceipt)
    ensures ShowError(w, receiptError) ==> receiptError.Some?
  {
  }
}
