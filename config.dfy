/**
 * `Config::load` (daemon/src/config.rs): the data directory and the socket
 * path derived from `$HOME`. The environment lookup is a parameter; paths are
 * sequences of components, `PathBuf::from(home)` being the single component
 * `home` and `join` appending one relative component.
 */
module Configuration {
  import opened Wrappers

  /** What `std::env::var("HOME")` can give. */
  datatype EnvVar = Unset | NotUnicode | Value(text: string)

  /** Why `load` fails. */
  datatype ConfigError = HomeNotPresent | HomeNotUnicode

  type Path = seq<string>

  datatype Config = Config(socketPath: Path, dataDir: Path)

  const APP_DIR: string := "second-brain"
  const SOCKET_FILE: string := "daemon.sock"

  /** `Config::load`, with `home` the value of `HOME`. */
  function Load(home: EnvVar): (r: Result<Config, ConfigError>)
    ensures r.Ok? <==> home.Value?
    ensures home.Unset? ==> r == Err(HomeNotPresent)
    ensures home.NotUnicode? ==> r == Err(HomeNotUnicode)
    ensures r.Ok? ==> r.value.dataDir == [home.text, ".local", "share", "second-brain"]
    ensures r.Ok? ==> r.value.socketPath == [home.text, ".local", "share", "second-brain", "daemon.sock"]
  {
    match home
    case Unset => Err(HomeNotPresent)
    case NotUnicode => Err(HomeNotUnicode)
    case Value(h) =>
      var dataDir := [h] + [".local"] + ["share"] + [APP_DIR];
      Ok(Config(dataDir + [SOCKET_FILE], dataDir))
  }

  /** `Path::parent`: everything but the last component. */
  function Parent(p: Path): Option<Path> {
    if p == [] then None else Some(p[..|p| - 1])
  }

  /** The socket lives directly in the data directory. */
  lemma SocketInDataDir(home: EnvVar)
    requires home.Value?
    ensures var c := Load(home).value;
      Parent(c.socketPath) == Some(c.dataDir) && c.socketPath[|c.socketPath| - 1] == SOCKET_FILE
  {
    var c := Load(home).value;
    assert c.socketPath[..|c.socketPath| - 1] == c.dataDir;
  }

  /** The path as text, components separated by `/`. */
  function Render(p: Path): string
    decreases |p|
  {
    if p == [] then []
    else if |p| == 1 then p[0]
    else Render(p[..|p| - 1]) + "/" + p[|p| - 1]
  }

  /** `t` occurs in `s` at position `i`. */
  predicate OccursAt(s: string, t: string, i: int) {
    0 <= i <= |s| - |t| && s[i..i + |t|] == t
  }

  /** `str::contains`. */
  predicate Contains(s: string, t: string) {
    exists i :: 0 <= i <= |s| && OccursAt(s, t, i)
  }

  /** The rendered socket path mentions the application's directory, whatever `HOME` is. */
  lemma SocketPathMentionsApp(home: EnvVar)
    requires home.Value?
    ensures Contains(Render(Load(home).value.socketPath), APP_DIR)
  {
    var c := Load(home).value;
    var front := Render([home.text, ".local", "share"]);
    assert [home.text, ".local", "share", APP_DIR][..3] == [home.text, ".local", "share"];
    assert c.socketPath[..4] == [home.text, ".local", "share", APP_DIR];
    var dir := Render(c.socketPath[..4]);
    assert dir == front + "/" + APP_DIR;
    var s := Render(c.socketPath);
    assert s == dir + "/" + SOCKET_FILE;
    var i := |front| + 1;
    assert s[i..i + |APP_DIR|] == APP_DIR;
    assert OccursAt(s, APP_DIR, i);
  }
}
