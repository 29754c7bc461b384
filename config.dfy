/**
 * The settings record of the helper pod: built-in defaults, in-place
 * defaulting (`Config.Validate`) and loading from a YAML file whose reading
 * and decoding are abstract outcomes.
 */
module Config {
  import opened Wrappers

  const DefaultImage: string := "uhub.service.ucloud.cn/library/alpine:latest"
  const DefaultPodNamespace: string := "kube-system"
  const DefaultPodName: string := "node-shell-{node}"
  const DefaultPauseCommand: seq<string> := ["sleep", "infinity"]
  const DefaultShellCommand: seq<string> := ["bash"]

  /** A snapshot of the settings record's five fields. */
  datatype Settings = Settings(
    image: string,
    pauseCommand: seq<string>,
    shellCommand: seq<string>,
    podNamespace: string,
    podName: string)

  /** The record a document that sets none of the keys decodes to. */
  const Empty: Settings := Settings("", [], [], "", "")

  /** Every string field and both command lists are non-empty. */
  predicate Complete(s: Settings)
  {
    s.image != "" && s.pauseCommand != [] && s.shellCommand != []
    && s.podNamespace != "" && s.podName != ""
  }

  /** Every field that is set in `c` has the same value in `r`. */
  predicate KeepsSetFields(c: Settings, r: Settings)
  {
    (c.image != "" ==> r.image == c.image)
    && (c.pauseCommand != [] ==> r.pauseCommand == c.pauseCommand)
    && (c.shellCommand != [] ==> r.shellCommand == c.shellCommand)
    && (c.podNamespace != "" ==> r.podNamespace == c.podNamespace)
    && (c.podName != "" ==> r.podName == c.podName)
  }

  /** Every field that is empty in `c` holds its own built-in default in `r`. */
  predicate DefaultsEmptyFields(c: Settings, r: Settings)
  {
    (c.image == "" ==> r.image == DefaultImage)
    && (c.pauseCommand == [] ==> r.pauseCommand == DefaultPauseCommand)
    && (c.shellCommand == [] ==> r.shellCommand == DefaultShellCommand)
    && (c.podNamespace == "" ==> r.podNamespace == DefaultPodNamespace)
    && (c.podName == "" ==> r.podName == DefaultPodName)
  }

  /** The all-defaults record. */
  function Default(): (d: Settings)
    ensures Complete(d)
    ensures d.podName == DefaultPodName && d.pauseCommand == DefaultPauseCommand
  {
    Settings(DefaultImage, DefaultPauseCommand, DefaultShellCommand, DefaultPodNamespace, DefaultPodName)
  }

  function OrDefault<T>(v: seq<T>, default: seq<T>): seq<T>
  {
    if v == [] then default else v
  }

  /** The record `Validate` leaves behind, as a function of the record it finds. */
  function Validated(c: Settings): (r: Settings)
    ensures Complete(r)
    ensures KeepsSetFields(c, r) && DefaultsEmptyFields(c, r)
  {
    Settings(
      OrDefault(c.image, DefaultImage),
      OrDefault(c.pauseCommand, DefaultPauseCommand),
      OrDefault(c.shellCommand, DefaultShellCommand),
      OrDefault(c.podNamespace, DefaultPodNamespace),
      OrDefault(c.podName, DefaultPodName))
  }

  /** Defaulting is per field: each field of the result depends on that field of the input alone. */
  lemma ValidatedPerField(c1: Settings, c2: Settings)
    ensures c1.image == c2.image ==> Validated(c1).image == Validated(c2).image
    ensures c1.pauseCommand == c2.pauseCommand ==> Validated(c1).pauseCommand == Validated(c2).pauseCommand
    ensures c1.shellCommand == c2.shellCommand ==> Validated(c1).shellCommand == Validated(c2).shellCommand
    ensures c1.podNamespace == c2.podNamespace ==> Validated(c1).podNamespace == Validated(c2).podNamespace
    ensures c1.podName == c2.podName ==> Validated(c1).podName == Validated(c2).podName
  {
  }

  /** A second `Validate` changes nothing; a complete record is a fixed point. */
  lemma ValidatedIdempotent(c: Settings)
    ensures Validated(Validated(c)) == Validated(c)
    ensures Complete(c) <==> Validated(c) == c
  {
  }

  /** `Default()` is what `Validate` makes of the all-empty record. */
  lemma DefaultIsValidatedEmpty()
    ensures Validated(Empty) == Default()
  {
  }

  /** The settings record as the program holds it: `Validate` updates its fields in place. */
  class Config {
    var image: string
    var pauseCommand: seq<string>
    var shellCommand: seq<string>
    var podNamespace: string
    var podName: string

    function Value(): Settings
      reads this
    {
      Settings(image, pauseCommand, shellCommand, podNamespace, podName)
    }

    constructor (s: Settings)
      ensures Value() == s
    {
      image := s.image;
      pauseCommand := s.pauseCommand;
      shellCommand := s.shellCommand;
      podNamespace := s.podNamespace;
      podName := s.podName;
    }

    /** Fills each empty field with its default, one field at a time; never fails. */
    method Validate() returns (err: Option<string>)
      modifies this
      ensures err == None
      ensures Value() == Validated(old(Value()))
      ensures Complete(Value())
    {
      if image == "" {
        image := DefaultImage;
      }
      if |pauseCommand| == 0 {
        pauseCommand := DefaultPauseCommand;
      }
      if |shellCommand| == 0 {
        shellCommand := DefaultShellCommand;
      }
      if podNamespace == "" {
        podNamespace := DefaultPodNamespace;
      }
      if podName == "" {
        podName := DefaultPodName;
      }
      err := None;
    }
  }

  type Bytes = seq<bv8>

  /** What reading the configuration file gave. */
  datatype FileRead = Contents(data: Bytes) | NotExist | ReadFailed(cause: string)

  /** What decoding the file's bytes as YAML gave: the keys it set, the others empty. */
  datatype Decoded = Decoded(settings: Settings) | DecodeFailed(cause: string)

  datatype LoadError =
    | HomeDirError(cause: string)
    | ReadError(cause: string)
    | ParseError(cause: string)

  /** The file `Load` reads: the given path, or `.config/kubesh.yaml` under the home directory. */
  function ConfigFile(configPath: string, home: Result<string, string>): (r: Result<string, LoadError>)
    ensures configPath != "" ==> r == Success(configPath)
    ensures configPath == "" && home.Failure? ==> r == Failure(HomeDirError(home.error))
  {
    if configPath != "" then Success(configPath)
    else if home.Failure? then Failure(HomeDirError(home.error))
    else Success(home.value + "/.config/kubesh.yaml")
  }

  /**
   * Loading the settings. A missing file yields the defaults; any other read
   * failure or a decoding failure is an error; a decoded record is always
   * passed through `Validate` before it is returned.
   */
  function Load(configPath: string, home: Result<string, string>,
                readFile: string -> FileRead, decode: Bytes -> Decoded): (r: Result<Settings, LoadError>)
    ensures r.Success? ==> Complete(r.value)
    ensures ConfigFile(configPath, home).Failure? ==> r == Failure(ConfigFile(configPath, home).error)
    ensures ConfigFile(configPath, home).Success? ==>
      var read := readFile(ConfigFile(configPath, home).value);
      && (read.NotExist? ==> r == Success(Default()))
      && (read.ReadFailed? ==> r == Failure(ReadError(read.cause)))
      && (read.Contents? && decode(read.data).DecodeFailed? ==> r == Failure(ParseError(decode(read.data).cause)))
      && (read.Contents? && decode(read.data).Decoded? ==>
            r.Success? && KeepsSetFields(decode(read.data).settings, r.value)
            && DefaultsEmptyFields(decode(read.data).settings, r.value))
  {
    match ConfigFile(configPath, home)
    case Failure(e) => Failure(e)
    case Success(path) =>
      match readFile(path)
      case NotExist => Success(Default())
      case ReadFailed(cause) => Failure(ReadError(cause))
      case Contents(data) =>
        match decode(data)
        case DecodeFailed(cause) => Failure(ParseError(cause))
        case Decoded(cfg) => Success(Validated(cfg))
  }
}
