/** The equivalence join of src/enrichment.rs and the documents it hands to the server.

    The server is a total function from a request to locations or an error; a timeout is an error.
    The traffic of one scope is logged: the requests it sends and the opens it had acknowledged. */
module Join {
  import opened Wrappers
  import opened StableSort
  import opened EntityIndex

  datatype Method = Definition | TypeDefinition

  datatype Location = Location(uri: string, line: u32)

  datatype Error = Rpc | Timeout | NotOpened

  datatype Event = Asked(m: Method, uri: string, line: u32, col: nat) | Opened(uri: string)

  /** What a pass is given. `text` is the document provider, `accepts` whether the client reports
      the didOpen of a uri as sent. */
  datatype Env = Env(
    index: Index,
    root: string,
    hasDefinition: bool,
    hasTypeDefinition: bool,
    answer: (Method, string, u32, nat) -> Result<seq<Location>, Error>,
    text: Option<string -> Option<string>>,
    accepts: string -> bool)

  /** `ScopedDocuments` with its scope's traffic. */
  datatype Docs = Docs(open: set<string>, log: seq<Event>)

  datatype Step<T> = Step(result: Result<T, Error>, docs: Docs)

  // ---- documents ------------------------------------------------------------

  /** The part after the last dot. */
  function Extension(path: string): Option<string>
  {
    if path == [] then None
    else
      var n := |path| - 1;
      if path[n] == '.' then Some([])
      else match Extension(path[..n])
        case None => None
        case Some(e) => Some(e + [path[n]])
  }

  const LANGUAGES: set<string> :=
    {"js", "mjs", "cjs", "jsx", "ts", "mts", "cts", "tsx", "py", "pyi", "rs", "go", "java", "c", "h",
     "cc", "cpp", "cxx", "hpp", "hh", "rb", "php", "swift", "kt", "kts", "cs"}

  /** `lsp_language_id` names a language. */
  predicate HasLanguage(path: string)
  {
    Extension(path).Some? && Extension(path).value in LANGUAGES
  }

  /** The pass can hand this file to the server. */
  predicate Openable(env: Env, file: string)
  {
    env.text.Some? && HasLanguage(file) && env.text.value(file).Some?
  }

  function OpenStep(env: Env, d: Docs, file: string, uri: string): Step<bool>
  {
    if uri in d.open then Step(Ok(true), d)
    else if !Openable(env, file) then Step(Ok(false), d)
    else if env.accepts(uri) then Step(Ok(true), Docs(d.open + {uri}, d.log + [Opened(uri)]))
    else Step(Err(NotOpened), d.(open := d.open + {uri}))
  }

  /** The server answers this kind of request. */
  predicate Supported(env: Env, m: Method)
  {
    match m
    case Definition => env.hasDefinition
    case TypeDefinition => env.hasTypeDefinition
  }

  /** `locations_at`: an unsupported request is an empty answer, and is not sent. */
  function Ask(env: Env, d: Docs, m: Method, uri: string, line: u32, col: nat): Step<seq<Location>>
  {
    if !Supported(env, m) then Step(Ok([]), d)
    else Step(env.answer(m, uri, line, col), d.(log := d.log + [Asked(m, uri, line, col)]))
  }

  function Locations(env: Env, m: Method, uri: string, line: u32, col: nat): Result<seq<Location>, Error>
  {
    Ask(env, Docs({}, []), m, uri, line, col).result
  }

  function FileUri(env: Env, file: string): string { PathToUri(JoinPath(env.root, file)) }

  // ---- the join -------------------------------------------------------------

  predicate SameLocation(a: Location, b: Location) { a.uri == b.uri && a.line == b.line }

  /** `candidate_is_proven`. */
  predicate Proven(candidate: seq<Location>, member: seq<Location>)
  {
    exists i, j :: 0 <= i < |candidate| && 0 <= j < |member| && SameLocation(candidate[i], member[j])
  }

  function Named(name: string): EntityRef -> bool { (e: EntityRef) => e.name == name }

  function ModuleEntities(env: Env, at: Location): seq<EntityRef>
    requires Ordered(env.index)
  {
    match UriToPath(at.uri)
    case None => []
    case Some(path) => EntriesForPath(env.index, path)
  }

  /** The entities with the member's name in the receiver's module files, in the order met. */
  function Candidates(env: Env, modules: seq<Location>, name: string): seq<EntityRef>
    requires Ordered(env.index)
  {
    if modules == [] then []
    else Filter(ModuleEntities(env, modules[0]), Named(name)) + Candidates(env, modules[1..], name)
  }

  predicate HasId(es: seq<EntityRef>, id: nat) { exists i :: 0 <= i < |es| && es[i].id == id }

  /** One candidate: is it admitted, and do its definitions meet the member's? */
  function Examine(env: Env, d: Docs, enriched: string, member: seq<Location>, c: EntityRef): Step<bool>
  {
    var uri := FileUri(env, c.filePath);
    var held := if c.filePath == enriched then Step(Ok(true), d) else OpenStep(env, d, c.filePath, uri);
    match held.result
    case Err(e) => Step(Err(e), held.docs)
    case Ok(admitted) =>
      if !admitted then Step(Ok(false), held.docs)
      else
        var asked := Ask(env, held.docs, Definition, uri, c.nameLine, c.nameCol);
        match asked.result
        case Err(e) => Step(Err(e), asked.docs)
        case Ok(definitions) => Step(Ok(Proven(definitions, member)), asked.docs)
  }

  function JoinAll(env: Env, d: Docs, enriched: string, member: seq<Location>,
                   candidates: seq<EntityRef>, bound: seq<EntityRef>): Step<seq<EntityRef>>
    decreases |candidates|
  {
    if candidates == [] then Step(Ok(bound), d)
    else
      var c := candidates[0];
      var examined := Examine(env, d, enriched, member, c);
      match examined.result
      case Err(e) => Step(Err(e), examined.docs)
      case Ok(proven) =>
        JoinAll(env, examined.docs, enriched, member, candidates[1..],
                if proven && !HasId(bound, c.id) then bound + [c] else bound)
  }

  /** `member_export_bindings`. */
  function Bindings(env: Env, d: Docs, enriched: string, uri: string, line: u32,
                    receiverCol: nat, memberCol: nat, name: string): Step<seq<EntityRef>>
    requires Ordered(env.index)
  {
    var modules := Ask(env, d, TypeDefinition, uri, line, receiverCol);
    match modules.result
    case Err(e) => Step(Err(e), modules.docs)
    case Ok(moduleLocations) =>
      var member := Ask(env, modules.docs, Definition, uri, line, memberCol);
      match member.result
      case Err(e) => Step(Err(e), member.docs)
      case Ok(definitions) =>
        JoinAll(env, member.docs, enriched, definitions, Candidates(env, moduleLocations, name), [])
  }
}
