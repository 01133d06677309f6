// What every request to the cloud, or to the store of the cluster objects, can
// come to.
module Api {

  /** A request succeeds, fails without effect, or takes effect and loses its
      reply. The last one also stands for a crash right after the request. */
  datatype Outcome = Success | NoEffect | LostReply

  /** The error of a request that did not succeed. */
  datatype RequestFailure = RequestFailed
}
