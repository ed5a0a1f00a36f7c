/**
 * How the upload form reads the handler's JSON reply: the form counts a
 * deployment as successful exactly when the handler answered with status 200.
 */
module EndToEnd {
  import opened Wrappers
  import opened DeployApi
  import opened UploadForm

  /** The handler's JSON body as the form decodes it; an absent `success` reads as false. */
  function ClientReply(resp: Response): (r: ServerReply)
    ensures r.ServerJson?
    ensures r.success <==> resp.body.Deployed?
  {
    match resp.body
    case Refused(e) => ServerJson(false, None, Some(e))
    case Deployed(url, _, _) => ServerJson(true, Some(url), None)
    case Failed(e) => ServerJson(false, None, Some(e))
  }

  /** The form's success counter moves exactly for the handler's 200 answers. */
  lemma SuccessCountedIffStatus200(resp: Response)
    requires WellFormed(resp)
    ensures DeploySucceeded(ClientReply(resp)) <==> resp.status == 200
  {
  }
}
