/** What becomes of a request to a remote service. */
module Remote {

  /** It is carried out and answered, it is not carried out, or it is carried out but
      the answer is lost. */
  datatype Net = Delivered | Dropped | ReplyLost

  /** How often a Kubernetes request is tried. */
  const MAX_RETRIES: nat := 5
}
