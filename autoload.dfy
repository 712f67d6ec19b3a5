// The class autoloader and start-up sequence of public/bootstrap.php: the
// mapping from a class name in the `App\` namespace to the file that
// defines it, and the logger level and session start every request begins with.
module Autoload {
  import opened Wrappers
  import opened Text
  import Config
  import Logging
  import Sessions

  /** The namespace prefix `App\`. */
  const PREFIX: string := "App\\"

  /** `strncmp($prefix, $class, strlen($prefix)) === 0`. */
  predicate HasPrefix(cls: string) {
    |cls| >= |PREFIX| && cls[..|PREFIX|] == PREFIX
  }

  /** `APP_ROOT . '/app/' . str_replace('\\', '/', $relativeClass) . '.php'`. */
  function RawPath(appRoot: string, rel: string): string {
    appRoot + "/app/" + ReplaceChar(rel, '\\', '/') + ".php"
  }

  /** Moves `e` back over the slashes that end `s[..e]`. */
  function SkipSlashes(s: string, e: nat): (r: nat)
    requires e <= |s|
    ensures r <= e
    ensures forall k :: r <= k < e ==> s[k] == '/'
    ensures r > 0 ==> s[r - 1] != '/'
  {
    if e > 0 && s[e - 1] == '/' then SkipSlashes(s, e - 1) else e
  }

  /** Moves `e` back over the characters other than slashes that end `s[..e]`. */
  function SkipName(s: string, e: nat): (r: nat)
    requires e <= |s|
    ensures r <= e
    ensures forall k :: r <= k < e ==> s[k] != '/'
    ensures r > 0 ==> s[r - 1] == '/'
  {
    if e > 0 && s[e - 1] != '/' then SkipName(s, e - 1) else e
  }

  /**
   * PHP `dirname` on a Unix path: trailing slashes go, then the last
   * component, then the slashes before it; "/" or "." when nothing is left.
   */
  function Dirname(p: string): string {
    if p == "" then ""
    else
      var e1 := SkipSlashes(p, |p|);
      if e1 == 0 then "/"
      else
        var e2 := SkipName(p, e1);
        if e2 == 0 then "."
        else
          var e3 := SkipSlashes(p, e2);
          if e3 == 0 then "/" else p[..e3]
  }

  /** PHP `basename`: the last component, without trailing slashes. */
  function Basename(p: string): string {
    var e1 := SkipSlashes(p, |p|);
    p[SkipName(p, e1)..e1]
  }

  /**
   * The file the autoloader computes for a class: nothing outside `App\`;
   * otherwise the directory part, `APP_ROOT` included, lower-cased and the
   * file name kept as it is.
   */
  function ClassFile(appRoot: string, cls: string): (r: Option<string>)
    ensures r.Some? <==> HasPrefix(cls)
  {
    if !HasPrefix(cls) then None
    else
      var file := RawPath(appRoot, cls[|PREFIX|..]);
      Some(Lower(Dirname(file)) + "/" + Basename(file))
  }

  /** The file `require_once` loads: the computed one, and only when `file_exists` reports it. */
  function Autoloaded(appRoot: string, cls: string, fileExists: string -> bool): (r: Option<string>)
    ensures r.Some? <==> HasPrefix(cls) && fileExists(ClassFile(appRoot, cls).value)
    ensures r.Some? ==> r == ClassFile(appRoot, cls)
  {
    var file := ClassFile(appRoot, cls);
    if file.Some? && fileExists(file.value) then file else None
  }

  predicate NoSeparator(s: string) {
    forall k :: 0 <= k < |s| ==> s[k] != '\\' && s[k] != '/'
  }

  lemma {:induction false} ReplaceKeepsNoSeparator(s: string)
    requires NoSeparator(s)
    ensures ReplaceChar(s, '\\', '/') == s
  {
  }

  /**
   * A class `App\<dir>\<Name>`, with `<Name>` free of separators and `<dir>`
   * not ending in one, maps to the lower-cased directory
   * `APP_ROOT/app/<dir with / for \>` and the file `<Name>.php`.
   */
  lemma {:induction false} NamespacedClassFile(appRoot: string, dir: string, name: string)
    requires dir != [] && dir[|dir| - 1] != '\\' && dir[|dir| - 1] != '/'
    requires NoSeparator(name)
    ensures ClassFile(appRoot, PREFIX + dir + "\\" + name)
      == Some(Lower(appRoot + "/app/" + ReplaceChar(dir, '\\', '/')) + "/" + name + ".php")
  {
    var cls := PREFIX + dir + "\\" + name;
    var rel := dir + "\\" + name;
    assert cls == PREFIX + rel;
    assert cls[..|PREFIX|] == PREFIX && cls[|PREFIX|..] == rel;
    ReplaceSplits(dir, name);
    ReplaceKeepsNoSeparator(name);
    var rd := ReplaceChar(dir, '\\', '/');
    var d := appRoot + "/app/" + rd;
    var f := name + ".php";
    var file := d + "/" + f;
    assert RawPath(appRoot, rel) == file;
    assert d[|d| - 1] == rd[|rd| - 1];
    assert forall k :: 0 <= k < |f| ==> f[k] != '/';
    SplitAtLastSlash(d, f);
    assert ClassFile(appRoot, cls) == Some(Lower(d) + "/" + f);
    assert Lower(d) + "/" + f == Lower(d) + "/" + name + ".php";
  }

  lemma {:induction false} ReplaceSplits(dir: string, name: string)
    ensures ReplaceChar(dir + "\\" + name, '\\', '/') == ReplaceChar(dir, '\\', '/') + "/" + ReplaceChar(name, '\\', '/')
  {
    var l := ReplaceChar(dir + "\\" + name, '\\', '/');
    var r := ReplaceChar(dir, '\\', '/') + "/" + ReplaceChar(name, '\\', '/');
    assert |l| == |r|;
    forall i | 0 <= i < |l| ensures l[i] == r[i] {
      if i < |dir| {
        assert (dir + "\\" + name)[i] == dir[i];
      } else if i == |dir| {
        assert (dir + "\\" + name)[i] == '\\';
      } else {
        assert (dir + "\\" + name)[i] == name[i - |dir| - 1];
      }
    }
  }

  /** A path `d/f`, with `f` free of separators and `d` not ending in a slash, splits into `d` and `f`. */
  lemma {:induction false} SplitAtLastSlash(d: string, f: string)
    requires d != [] && d[|d| - 1] != '/'
    requires f != [] && forall k :: 0 <= k < |f| ==> f[k] != '/'
    ensures Dirname(d + "/" + f) == d && Basename(d + "/" + f) == f
  {
    var p := d + "/" + f;
    assert p[|p| - 1] == f[|f| - 1];
    assert SkipSlashes(p, |p|) == |p|;
    var b := SkipName(p, |p|);
    assert p[|d|] == '/';
    assert forall k :: |d| < k < |p| ==> p[k] == f[k - |d| - 1];
    assert b == |d| + 1;
    assert SkipSlashes(p, b) == |d|;
    assert p[..|d|] == d;
    assert p[b..|p|] == f;
  }

  /**
   * A class one namespace level below `App\`, such as `App\Utils\Session`,
   * is looked for as `<APP_ROOT, lower-cased>/app/<dir, lower-cased>/<Name>.php`:
   * the lower-casing reaches the application root as well.
   */
  lemma {:induction false} SingleLevelClassFile(appRoot: string, dir: string, name: string)
    requires dir != [] && NoSeparator(dir)
    requires NoSeparator(name)
    ensures ClassFile(appRoot, PREFIX + dir + "\\" + name)
      == Some(Lower(appRoot) + "/app/" + Lower(dir) + "/" + name + ".php")
  {
    NamespacedClassFile(appRoot, dir, name);
    ReplaceKeepsNoSeparator(dir);
    LowerAppend(appRoot + "/app/", dir);
    LowerAppend(appRoot, "/app/");
    LowerIs("/app/", "/app/");
  }

  /** `Logger::setLevel(LOG_LEVEL)` then `Session::start()`, run before every page. */
  method Bootstrap(log: Logging.Logger, s: Sessions.Session, now: int)
    modifies log, s
    ensures log.level == Logging.LevelAfterSet(old(log.level), Config.LOG_LEVEL)
    ensures log.written == old(log.written)
    ensures s.State() == Sessions.AfterStart(old(s.State()), now)
  {
    log.SetLevel(Config.LOG_LEVEL);
    s.Start(now);
  }
}
