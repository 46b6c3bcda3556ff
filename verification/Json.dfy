/** JSON values as the workflow reads and writes them, and the foreign functions
    (hashes, text normalisation) that every component is parameterised by. */
module Json {

  datatype Option<+T> = None | Some(value: T)

  newtype byte = n: int | 0 <= n < 256

  type Bytes = seq<byte>

  /** Field names. A name the model never inspects is `Other`. */
  datatype Key =
    | Active | ActivatedAt | AdapterVersion | Artifacts | DeploymentRef | Digest | EventId
    | FileName | FilePath | Head | Index | InventorySha256 | LogicalName | ManifestRDigest
    | OutputDir | PrevHead | Record | RecordDigest | RecordedAt | ReleaseRef | RollbackRef
    | SchemaVersion | Sha1 | Sha256 | Size | SourceManifestSDigest | SourceRef | SourceSha1
    | SourceSha256 | Stage | TargetRef | SchemaName | RoundId | TaskName | ModuleName | PolicyProfile
    | PolicyDigest | EffectiveChecks | EvidenceRefs | ManifestSDigest
    | Other(name: string)

  /** Integers only: no document of the model carries a fraction. */
  datatype Json =
    | Null
    | Bool(b: bool)
    | Num(n: int)
    | Str(s: string)
    | Arr(items: seq<Json>)
    | Obj(fields: map<Key, Json>)
  {
    /** `dict.get`: an absent field reads as null. */
    function Get(k: Key): Json
      requires Obj?
    {
      if k in fields then fields[k] else Null
    }

    predicate Falsy() {
      match this
      case Null => true
      case Bool(b) => !b
      case Num(n) => n == 0
      case Str(s) => s == ""
      case Arr(items) => items == []
      case Obj(fields) => fields == map[]
    }
  }

  /** What the model takes from Python and the operating system without opening it up. */
  datatype Host = Host(
    digest: Json -> string,      // SHA-256 over the canonical JSON text
    sha1: Bytes -> string,
    sha256: Bytes -> string,
    casefold: string -> string,
    strip: string -> string,
    lower: string -> string,
    repr: Json -> string,        // str() of a value that is not a string
    absolute: string -> string,  // expanded, absolute, normalised form of a path; links stay
    resolve: string -> string    // absolute, link-free form of a path
  )

  /** `str(value or "")` */
  function Text(h: Host, v: Json): string {
    if v.Falsy() then "" else if v.Str? then v.s else h.repr(v)
  }

  ghost predicate CollisionFree(f: Json -> string) {
    forall x, y :: f(x) == f(y) ==> x == y
  }

  predicate IsHexChar(c: char) {
    '0' <= c <= '9' || 'a' <= c <= 'f'
  }

  predicate IsHex(s: string, length: nat) {
    |s| == length && forall i :: 0 <= i < |s| ==> IsHexChar(s[i])
  }

  predicate IsIdentifierChar(c: char) {
    '0' <= c <= '9' || 'a' <= c <= 'z' || 'A' <= c <= 'Z'
  }

  predicate IsEventId(s: string) {
    && 1 <= |s| <= 121
    && IsIdentifierChar(s[0])
    && forall i :: 0 <= i < |s| ==> IsIdentifierChar(s[i]) || s[i] == '_' || s[i] == '.' || s[i] == '-'
  }

  /** `s[:n]` */
  function Take(s: string, n: nat): string {
    if |s| <= n then s else s[..n]
  }

  /** `name.split(".", 1)[0]` */
  function Stem(name: string): string {
    if name == "" || name[0] == '.' then "" else [name[0]] + Stem(name[1..])
  }

  predicate IsReservedStem(stem: string) {
    || stem in ["con", "prn", "aux", "nul"]
    || (|stem| == 4 && stem[..3] in ["com", "lpt"] && '1' <= stem[3] <= '9')
  }

  /** One file name that is portable across operating systems: no separators, no
      control characters, no reserved device name, no surrounding blanks. */
  predicate IsPortableName(h: Host, raw: string) {
    && raw != "" && h.strip(raw) == raw
    && raw != "." && raw != ".." && raw[|raw| - 1] != '.'
    && (forall i :: 0 <= i < |raw| ==> raw[i] != '/' && raw[i] != '\\' && raw[i] != ':' && raw[i] >= ' ')
    && !IsReservedStem(h.casefold(Stem(raw)))
  }
}
