/**
 * The serverless `/api/deploy` handler: create the hosting project with the
 * active token, deploy once, and on a deployment without a URL rotate once and
 * retry exactly once with the same payload. Every provider answer is an input
 * (`ProviderReplies`); the handler reports which provider calls it made.
 */
module DeployApi {
  import opened Wrappers
  import opened JsText
  import opened TokenRotation

  /** The parts of the incoming request the handler reads. `fileName` is the
      value that the payload's `file` field is built from. */
  datatype Request = Request(httpMethod: string, siteName: Option<string>, fileType: Option<string>, fileName: string)

  /** Outcome of `POST /v9/projects`: ok, a non-ok reply with its decoded
      `error.message`, or a thrown error (network or JSON decoding). */
  datatype ProjectReply = ProjectOk | ProjectNotOk(errorMessage: Option<string>) | ProjectThrew(message: string)

  /** Outcome of `POST /v13/deployments`: the decoded body's `url` and
      `error.message`, or a thrown error (network or JSON decoding). */
  datatype DeployReply = DeployBody(url: Option<string>, errorMessage: Option<string>) | DeployThrew(message: string)

  /** What the provider answers to the project call, the first deployment and the retry. */
  datatype ProviderReplies = ProviderReplies(project: ProjectReply, deploy: DeployReply, retry: DeployReply)

  datatype PayloadFile = PayloadFile(file: string, data: string)
  datatype Payload = Payload(name: string, project: string, target: string, files: seq<PayloadFile>)

  /** An outbound call to the provider with the bearer token it carried. */
  datatype ProviderCall =
    | CreateProject(token: string, name: string)
    | CreateDeployment(token: string, payload: Payload)

  /** The JSON body sent back: a bare `{error}`, a success record or a failure record. */
  datatype Body =
    | Refused(error: string)
    | Deployed(url: string, tokenIndex: nat, message: string)
    | Failed(error: string)

  datatype Response = Response(status: nat, body: Body)

  /** The domain the provider serves a project from. */
  function SiteUrl(siteName: string): string
  {
    "https://" + siteName + ".vercel.app"
  }

  /** The message of a caught error: `error.message || 'Internal server error'`. */
  function CaughtMessage(message: string): (r: string)
    ensures r != ""
    ensures message != "" ==> r == message
    ensures message == "" ==> r == "Internal server error"
  {
    if message != "" then message else "Internal server error"
  }

  /** Status 200 is sent exactly with a success record, whose URL is never empty. */
  predicate WellFormed(resp: Response)
  {
    (resp.status == 200 <==> resp.body.Deployed?) && (resp.body.Deployed? ==> resp.body.url != "")
  }

  predicate IsPost(req: Request)
  {
    req.httpMethod == "POST"
  }

  /** The request names a site and a file type (both truthy). */
  predicate HasRequiredFields(req: Request)
  {
    Truthy(req.siteName) && Truthy(req.fileType)
  }

  predicate DeployHasUrl(reply: DeployReply)
  {
    reply.DeployBody? && Truthy(reply.url)
  }

  function DeployCallCount(calls: seq<ProviderCall>): (c: nat)
    ensures c <= |calls|
  {
    if calls == [] then 0
    else DeployCallCount(calls[..|calls| - 1]) + (if calls[|calls| - 1].CreateDeployment? then 1 else 0)
  }

  /** The deployment calls of a log split over two parts of it. */
  lemma {:induction false} DeployCallCountAppend(a: seq<ProviderCall>, b: seq<ProviderCall>)
    ensures DeployCallCount(a + b) == DeployCallCount(a) + DeployCallCount(b)
    decreases |b|
  {
    if b == [] {
      assert a + b == a;
    } else {
      var init := b[..|b| - 1];
      DeployCallCountAppend(a, init);
      assert (a + b)[..|a + b| - 1] == a + init;
    }
  }

  /** A single call counts one exactly when it is a deployment. */
  lemma DeployCallCountSingle(c: ProviderCall)
    ensures DeployCallCount([c]) == if c.CreateDeployment? then 1 else 0
  {
  }

  /** The error text a failed project creation surfaces. */
  function ProjectFailureMessage(reply: ProjectReply): string
    requires !reply.ProjectOk?
  {
    match reply
    case ProjectNotOk(m) => "Project creation failed: " + OrElse(m, "Unknown error")
    case ProjectThrew(m) => CaughtMessage(m)
  }

  method Handler(pool: TokenPool, req: Request, replies: ProviderReplies) returns (resp: Response, calls: seq<ProviderCall>)
    requires pool.Valid()
    modifies pool
    ensures pool.Valid()
    // The cursor moves only by rotation, at most once per request.
    ensures pool.rotations == old(pool.rotations) || pool.rotations == old(pool.rotations) + 1
    ensures pool.index == Advance(old(pool.index), pool.rotations - old(pool.rotations), |pool.tokens|)
    ensures |calls| <= 3 && DeployCallCount(calls) <= 2
    ensures resp.status in {200, 400, 405, 500}
    ensures WellFormed(resp)
    // A wrong method is refused before anything else happens.
    ensures !IsPost(req) ==>
      resp == Response(405, Refused("Method not allowed")) && calls == [] && pool.rotations == old(pool.rotations)
    // A missing site name or file type is refused before any provider call.
    ensures IsPost(req) && !HasRequiredFields(req) ==>
      resp == Response(400, Refused("Site name and files content are required"))
      && calls == [] && pool.rotations == old(pool.rotations)
    // Otherwise the project is created with the token active on entry.
    ensures IsPost(req) && HasRequiredFields(req) ==>
      |calls| >= 1 && calls[0] == CreateProject(old(pool.tokens[pool.index]), req.siteName.value)
    // A failed project creation ends the request: no deployment, no rotation.
    ensures IsPost(req) && HasRequiredFields(req) && !replies.project.ProjectOk? ==>
      resp == Response(500, Failed(ProjectFailureMessage(replies.project)))
      && |calls| == 1 && pool.rotations == old(pool.rotations)
    ensures IsPost(req) && HasRequiredFields(req) && replies.project.ProjectNotOk? ==>
      resp.body.Failed? && "Project creation failed: " <= resp.body.error
    // Otherwise one deployment is made with the same token and the payload built once.
    ensures IsPost(req) && HasRequiredFields(req) && replies.project.ProjectOk? ==>
      |calls| >= 2
      && calls[1] == CreateDeployment(old(pool.tokens[pool.index]),
           Payload(req.siteName.value, req.siteName.value, "production", [PayloadFile(req.fileName, req.fileType.value)]))
    // A deployment that threw is reported as caught, with no rotation and no retry.
    ensures IsPost(req) && HasRequiredFields(req) && replies.project.ProjectOk? && replies.deploy.DeployThrew? ==>
      resp == Response(500, Failed(CaughtMessage(replies.deploy.message)))
      && |calls| == 2 && pool.rotations == old(pool.rotations)
    // First deployment has a URL: rotate once, report the cursor after rotating.
    ensures IsPost(req) && HasRequiredFields(req) && replies.project.ProjectOk? && DeployHasUrl(replies.deploy) ==>
      resp == Response(200, Deployed(SiteUrl(req.siteName.value), pool.index, "Deployment successful"))
      && |calls| == 2 && pool.rotations == old(pool.rotations) + 1
      && pool.index == Next(old(pool.index), |pool.tokens|)
    // First deployment has no URL: rotate once and retry once with the new token and the same payload.
    ensures (IsPost(req) && HasRequiredFields(req) && replies.project.ProjectOk?
             && replies.deploy.DeployBody? && !DeployHasUrl(replies.deploy)) ==>
      |calls| == 3 && pool.rotations == old(pool.rotations) + 1
      && pool.index == Next(old(pool.index), |pool.tokens|)
      && calls[2] == CreateDeployment(pool.tokens[pool.index], calls[1].payload)
      && (DeployHasUrl(replies.retry) ==>
            resp == Response(200, Deployed(SiteUrl(req.siteName.value), pool.index, "Deployment successful with retry")))
      && (replies.retry.DeployBody? && !DeployHasUrl(replies.retry) ==>
            resp == Response(500, Failed(OrElse(replies.deploy.errorMessage, "Deployment failed"))))
      && (replies.retry.DeployThrew? ==>
            resp == Response(500, Failed(CaughtMessage(replies.retry.message))))
  {
    if req.httpMethod != "POST" {
      return Response(405, Refused("Method not allowed")), [];
    }
    if !Truthy(req.siteName) || !Truthy(req.fileType) {
      return Response(400, Refused("Site name and files content are required")), [];
    }
    var siteName := req.siteName.value;
    var fileType := req.fileType.value;

    var token := pool.GetActiveToken();
    calls := [CreateProject(token, siteName)];
    if !replies.project.ProjectOk? {
      return Response(500, Failed(ProjectFailureMessage(replies.project))), calls;
    }

    var payload := Payload(siteName, siteName, "production", [PayloadFile(req.fileName, fileType)]);
    calls := calls + [CreateDeployment(token, payload)];
    assert DeployCallCount(calls) == 1 by { assert calls[..1] == [CreateProject(token, siteName)]; }
    match replies.deploy
    case DeployThrew(m) =>
      resp := Response(500, Failed(CaughtMessage(m)));
    case DeployBody(url, errorMessage) =>
      if Truthy(url) {
        var _ := pool.RotateToken();
        resp := Response(200, Deployed(SiteUrl(siteName), pool.index, "Deployment successful"));
      } else {
        var nextToken := pool.RotateToken();
        ghost var before := calls;
        calls := calls + [CreateDeployment(nextToken, payload)];
        assert calls[..2] == before;
        match replies.retry
        case DeployThrew(m) =>
          resp := Response(500, Failed(CaughtMessage(m)));
        case DeployBody(retryUrl, _) =>
          if Truthy(retryUrl) {
            resp := Response(200, Deployed(SiteUrl(siteName), pool.index, "Deployment successful with retry"));
          } else {
            resp := Response(500, Failed(OrElse(errorMessage, "Deployment failed")));
          }
      }
  }
}
