/**
 The records exchanged by the collaboration backend: resources placed on a
 canvas, the links between them, the canvas itself and chat messages.
 The constant pydantic defaults of `AWSResource` and `Connection` become
 constructor defaults; a default produced by the clock (`datetime.now`) is
 supplied as an explicit `now` argument where the model builds a record.
 */
module Models {
  import opened Wrappers

  type SessionId = string

  /** An instant, treated as opaque; its ISO-8601 text form round-trips unchanged. */
  datatype Timestamp = Timestamp(ticks: int)

  /** The eight resource kinds a canvas may hold. */
  datatype ResourceType = Vpc | Ec2 | Rds | Alb | Redis | S3 | Lambda | ApiGateway {

    /** The literal that stands for this kind on the wire. */
    function Tag(): string {
      match this
      case Vpc => "vpc"
      case Ec2 => "ec2"
      case Rds => "rds"
      case Alb => "alb"
      case Redis => "redis"
      case S3 => "s3"
      case Lambda => "lambda"
      case ApiGateway => "apigateway"
    }
  }

  /** Every literal the `type` field of a resource accepts. */
  const ResourceTags: set<string> :=
    {"vpc", "ec2", "rds", "alb", "redis", "s3", "lambda", "apigateway"}

  /** Validation of the `type` field: exactly the eight literals are accepted. */
  function ParseResourceType(tag: string): (r: Option<ResourceType>)
    ensures r.Some? ==> r.value.Tag() == tag
    ensures r.None? ==> forall t: ResourceType :: t.Tag() != tag
  {
    if tag == "vpc" then Some(Vpc)
    else if tag == "ec2" then Some(Ec2)
    else if tag == "rds" then Some(Rds)
    else if tag == "alb" then Some(Alb)
    else if tag == "redis" then Some(Redis)
    else if tag == "s3" then Some(S3)
    else if tag == "lambda" then Some(Lambda)
    else if tag == "apigateway" then Some(ApiGateway)
    else None
  }

  /** Printing a kind and validating the literal gives the kind back. */
  lemma ParseTagRoundTrip(t: ResourceType)
    ensures ParseResourceType(t.Tag()) == Some(t)
  {
  }

  /** A literal is accepted exactly when it is one of the eight tags. */
  lemma ParseAcceptsExactlyTags(tag: string)
    ensures ParseResourceType(tag).Some? <==> tag in ResourceTags
  {
  }

  /** A resource on the canvas; the free-form property map has text values here. */
  datatype AwsResource = AwsResource(
    id: string,
    resourceType: ResourceType,
    name: string,
    x: real,
    y: real,
    properties: map<string, string> := map[],
    notes: string := "")

  /** A directed link between two resources, named by their ids. */
  datatype Connection = Connection(
    fromResource: string,
    toResource: string,
    connectionType: string := "default")

  /** The whole shared design of one session. */
  datatype CanvasState = CanvasState(
    sessionId: SessionId,
    resources: seq<AwsResource>,
    connections: seq<Connection>,
    userPrompt: string,
    lastUpdated: Timestamp)

  /** A chat message. The timestamp, which pydantic defaults to the current instant, is supplied explicitly. */
  datatype ChatMessage = ChatMessage(
    sessionId: SessionId,
    userId: string,
    username: string,
    message: string,
    timestamp: Timestamp)

  /** `CanvasState(session_id=s)`: every other field takes its default. */
  function EmptyCanvas(s: SessionId, now: Timestamp): (c: CanvasState)
    ensures c.sessionId == s && c.lastUpdated == now
    ensures c.resources == [] && c.connections == [] && c.userPrompt == ""
  {
    CanvasState(s, [], [], "", now)
  }

  /** The defaults of a resource's optional fields and of a link's kind. */
  lemma ResourceAndConnectionDefaults(id: string, t: ResourceType, name: string, x: real, y: real, a: string, b: string)
    ensures AwsResource(id, t, name, x, y).properties == map[]
    ensures AwsResource(id, t, name, x, y).notes == ""
    ensures Connection(a, b).connectionType == "default"
  {
  }

  /** Resource ids are distinct within a canvas. */
  predicate UniqueResourceIds(c: CanvasState) {
    forall i, j :: 0 <= i < j < |c.resources| ==> c.resources[i].id != c.resources[j].id
  }

  /** Every link names resources present on the canvas. */
  predicate LinksResolve(c: CanvasState) {
    forall k :: 0 <= k < |c.connections| ==>
      (exists i :: 0 <= i < |c.resources| && c.resources[i].id == c.connections[k].fromResource)
      && (exists i :: 0 <= i < |c.resources| && c.resources[i].id == c.connections[k].toResource)
  }
}
