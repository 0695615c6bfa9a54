/** The Gateway API objects the plugin reads and rewrites, as values.

    A weight is a pointer in the Go types, but the plugin only ever replaces such a pointer and never
    writes through one, so a weight is a value here; SharedWeights.dfy and TcpRoutes.dfy keep the pointers. */
module Gateway {

  datatype Option<+T> = None | Some(value: T)

  /** Go's `int32`, the type of every weight. */
  newtype Int32 = x: int | -0x8000_0000 <= x <= 0x7fff_ffff

  /** Two's complement truncation, the result of `int32` arithmetic in Go. */
  function Wrap32(x: int): (r: Int32)
    ensures (x - r as int) % 0x1_0000_0000 == 0
    ensures -0x8000_0000 <= x <= 0x7fff_ffff ==> r as int == x
  {
    ((x + 0x8000_0000) % 0x1_0000_0000 - 0x8000_0000) as Int32
  }

  /** The largest Go `int`, which bounds the length of a slice and the result of `strconv.Atoi`. */
  const MAX_INT := 0x7fff_ffff_ffff_ffff
  const MIN_INT := -0x8000_0000_0000_0000

  datatype Kind = Http | Grpc | Tcp | Tls

  datatype Filter = Filter(kind: string, settings: string)

  datatype BackendRef = BackendRef(
    group: Option<string>,
    kind: Option<string>,
    name: string,
    namespace: Option<string>,
    port: Option<Int32>,
    weight: Option<Int32>,
    filters: seq<Filter>)

  datatype HeaderType = Exact | RegularExpression

  datatype HeaderMatch = HeaderMatch(name: string, kind: Option<HeaderType>, value: string)

  datatype PathMatch = ExactPath(value: string) | PrefixPath(value: string) | RegexPath(value: string)

  datatype QueryMatch = QueryMatch(name: string, kind: Option<HeaderType>, value: string)

  datatype GrpcMethod = GrpcMethod(kind: Option<HeaderType>, service: Option<string>, procedure: Option<string>)

  /** Everything a match asks for besides headers. */
  datatype Criteria =
    | HttpCriteria(path: Option<PathMatch>, query: seq<QueryMatch>, verb: Option<string>)
    | GrpcCriteria(call: Option<GrpcMethod>)

  datatype Match = Match(criteria: Criteria, headers: seq<HeaderMatch>)

  /** `policy` stands for the timeouts, retry and session persistence settings of a rule. */
  datatype Rule = Rule(
    name: Option<string>,
    matches: seq<Match>,
    filters: seq<Filter>,
    backends: seq<BackendRef>,
    policy: Option<string>)

  /** The part of a route object that the plugin changes; `labels` is `None` when the Go map is nil. */
  datatype RouteState = RouteState(rules: seq<Rule>, labels: Option<map<string, string>>)
}
