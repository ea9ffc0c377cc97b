/**
 * Configuration read by the application factory (app/__init__.py): the
 * rewrite of relative SQLite URIs into absolute ones and the
 * `MAX_CONTENT_LENGTH` environment variable. Environment lookups are
 * parameters; `BASE_DIR` (the project directory) is a parameter; and
 * `Path.resolve()`, whose result depends on the file system, is an
 * uninterpreted function of the path it is given.
 */
module Config {
  import opened Common
  import opened Decimal

  predicate StartsWith(s: string, prefix: string) {
    |prefix| <= |s| && s[..|prefix|] == prefix
  }

  // ------------------------------------------------------------ paths

  /** `s.split("/")`: the text between slashes, empty pieces included. */
  function Split(s: string): (r: seq<string>)
    ensures |r| > 0
  {
    if s == [] then [""]
    else if s[0] == '/' then [""] + Split(s[1..])
    else
      var rest := Split(s[1..]);
      [[s[0]] + rest[0]] + rest[1..]
  }

  /** A path component `PurePosixPath` keeps: not empty and not ".". */
  predicate Kept(piece: string) {
    piece != "" && piece != "."
  }

  function Keep(pieces: seq<string>): (r: seq<string>)
    ensures forall i :: 0 <= i < |r| ==> Kept(r[i])
  {
    if pieces == [] then []
    else (if Kept(pieces[0]) then [pieces[0]] else []) + Keep(pieces[1..])
  }

  /** `Path(raw).parts` for a path that does not start with "/". */
  function Parts(raw: string): seq<string> {
    Keep(Split(raw))
  }

  /** A path value: an anchor directory and the components joined below it with `/`. */
  datatype FsPath = FsPath(base: string, parts: seq<string>)

  const SqlitePrefix := "sqlite:///"

  /**
   * `_resolve_sqlite_uri(uri, instance_path)`: a relative SQLite path is made
   * absolute, under the instance folder when its first component is
   * "instance" and under `baseDir` otherwise.
   */
  function ResolveSqliteUri(uri: string, instancePath: string, baseDir: string, resolve: FsPath -> string): (r: string)
    ensures !StartsWith(uri, SqlitePrefix) ==> r == uri
    ensures StartsWith(uri, SqlitePrefix) ==> StartsWith(r, SqlitePrefix)
  {
    if !StartsWith(uri, SqlitePrefix) then uri
    else
      var raw := uri[|SqlitePrefix|..];
      if StartsWith(raw, "/") || StartsWith(raw, "file:") then uri
      else
        var parts := Parts(raw);
        var absolute :=
          if |parts| > 0 && parts[0] == "instance" then FsPath(instancePath, parts[1..])
          else FsPath(baseDir, parts);
        SqlitePrefix + resolve(absolute)
  }

  /** `"/".join(parts)` for at least one part. */
  function Join(parts: seq<string>): string
    requires |parts| > 0
  {
    if |parts| == 1 then parts[0] else parts[0] + "/" + Join(parts[1..])
  }

  lemma {:induction false} SplitNoSlash(a: string)
    requires '/' !in a
    ensures Split(a) == [a]
  {
    if a != [] {
      assert a[0] in a && forall c :: c in a[1..] ==> c in a;
      SplitNoSlash(a[1..]);
      assert [a[0]] + a[1..] == a;
    }
  }

  lemma {:induction false} SplitAtSlash(a: string, b: string)
    requires '/' !in a
    ensures Split(a + "/" + b) == [a] + Split(b)
  {
    if a == [] {
      assert a + "/" + b == "/" + b;
      assert ("/" + b)[1..] == b;
    } else {
      assert (a + "/" + b)[1..] == a[1..] + "/" + b;
      SplitAtSlash(a[1..], b);
      assert [a[0]] + a[1..] == a;
    }
  }

  lemma {:induction false} SplitJoin(parts: seq<string>)
    requires |parts| > 0
    requires forall i :: 0 <= i < |parts| ==> '/' !in parts[i]
    ensures Split(Join(parts)) == parts
  {
    if |parts| == 1 {
      SplitNoSlash(parts[0]);
    } else {
      SplitJoin(parts[1..]);
      SplitAtSlash(parts[0], Join(parts[1..]));
    }
  }

  lemma {:induction false} KeepAll(pieces: seq<string>)
    requires forall i :: 0 <= i < |pieces| ==> Kept(pieces[i])
    ensures Keep(pieces) == pieces
  {
    if pieces != [] {
      KeepAll(pieces[1..]);
    }
  }

  /** Joining proper components with "/" and reading the parts back gives the components. */
  lemma PartsOfJoin(parts: seq<string>)
    requires |parts| > 0
    requires forall i :: 0 <= i < |parts| ==> Kept(parts[i]) && '/' !in parts[i]
    ensures Parts(Join(parts)) == parts
  {
    SplitJoin(parts);
    KeepAll(parts);
  }

  /** The parts never contain empty or "." components, and no slash survives in them. */
  lemma {:induction false} PartsAreComponents(raw: string)
    ensures forall i :: 0 <= i < |Parts(raw)| ==> Kept(Parts(raw)[i]) && '/' !in Parts(raw)[i]
  {
    SplitPieces(raw);
    KeepSubset(Split(raw));
    forall i | 0 <= i < |Parts(raw)| ensures '/' !in Parts(raw)[i] {
      assert Parts(raw)[i] in Split(raw);
    }
  }

  lemma {:induction false} SplitPieces(s: string)
    ensures forall i :: 0 <= i < |Split(s)| ==> '/' !in Split(s)[i]
  {
    if s != [] {
      SplitPieces(s[1..]);
    }
  }

  lemma {:induction false} KeepSubset(pieces: seq<string>)
    ensures forall p :: p in Keep(pieces) ==> p in pieces
  {
    if pieces != [] {
      KeepSubset(pieces[1..]);
    }
  }

  /** A URI that is not a relative SQLite path comes back as it was. */
  lemma UriUnchanged(uri: string, instancePath: string, baseDir: string, resolve: FsPath -> string)
    requires !StartsWith(uri, SqlitePrefix)
      || StartsWith(uri[|SqlitePrefix|..], "/") || StartsWith(uri[|SqlitePrefix|..], "file:")
    ensures ResolveSqliteUri(uri, instancePath, baseDir, resolve) == uri
  {
  }

  /** "sqlite:///instance/<rest>" is placed under the instance folder, without the "instance" component. */
  lemma InstanceRelative(rest: string, instancePath: string, baseDir: string, resolve: FsPath -> string)
    ensures ResolveSqliteUri(SqlitePrefix + "instance/" + rest, instancePath, baseDir, resolve)
      == SqlitePrefix + resolve(FsPath(instancePath, Parts(rest)))
  {
    var uri := SqlitePrefix + "instance/" + rest;
    assert uri[..|SqlitePrefix|] == SqlitePrefix;
    var raw := uri[|SqlitePrefix|..];
    assert raw == "instance" + "/" + rest;
    SplitAtSlash("instance", rest);
    assert Parts(raw) == ["instance"] + Parts(rest);
  }

  /** Any other relative SQLite path is placed under `baseDir`, component by component. */
  lemma BaseRelative(raw: string, instancePath: string, baseDir: string, resolve: FsPath -> string)
    requires !StartsWith(raw, "/") && !StartsWith(raw, "file:")
    requires Parts(raw) == [] || Parts(raw)[0] != "instance"
    ensures ResolveSqliteUri(SqlitePrefix + raw, instancePath, baseDir, resolve)
      == SqlitePrefix + resolve(FsPath(baseDir, Parts(raw)))
  {
    var uri := SqlitePrefix + raw;
    assert uri[..|SqlitePrefix|] == SqlitePrefix;
    assert uri[|SqlitePrefix|..] == raw;
  }

  // ------------------------------------------------------------ MAX_CONTENT_LENGTH

  /** The characters `str.isspace()` accepts, which `int()` strips from both ends. */
  predicate IsSpace(c: char) {
    var n := c as int;
    n == 0x20 || 0x09 <= n <= 0x0D || 0x1C <= n <= 0x1F || n == 0x85 || n == 0xA0 || n == 0x1680
    || 0x2000 <= n <= 0x200A || n == 0x2028 || n == 0x2029 || n == 0x202F || n == 0x205F || n == 0x3000
  }

  function TrimStart(s: string): (r: string)
    ensures |r| <= |s|
    ensures r == [] || !IsSpace(r[0])
  {
    if s != [] && IsSpace(s[0]) then TrimStart(s[1..]) else s
  }

  function TrimEnd(s: string): (r: string)
    ensures |r| <= |s|
    ensures r == [] || !IsSpace(r[|r| - 1])
  {
    if s != [] && IsSpace(s[|s| - 1]) then TrimEnd(s[..|s| - 1]) else s
  }

  function Strip(s: string): string {
    TrimEnd(TrimStart(s))
  }

  /** Decimal digits with single underscores between them, as `int()` accepts. */
  predicate DigitGroups(b: string) {
    && |b| > 0 && IsDigit(b[0]) && IsDigit(b[|b| - 1])
    && (forall i :: 0 <= i < |b| ==> IsDigit(b[i]) || b[i] == '_')
    && (forall i, j :: 0 <= i < |b| && 0 <= j < |b| && j == i + 1 ==> b[i] != '_' || b[j] != '_')
  }

  function DropUnderscores(b: string): (r: string)
    requires forall i :: 0 <= i < |b| ==> IsDigit(b[i]) || b[i] == '_'
    ensures AllDigits(r)
  {
    if b == [] then []
    else (if b[0] == '_' then [] else [b[0]]) + DropUnderscores(b[1..])
  }

  /** `int(s)` in base 10 for ASCII digits, at most 4300 of them: `None` where Python raises `ValueError`. */
  function ParseInt(s: string): (r: Option<int>)
    ensures Strip(s) == [] ==> r.None?
    ensures r.Some? && r.value < 0 ==> Strip(s)[0] == '-'
  {
    ParseStripped(Strip(s))
  }

  /** An optional sign, then digit groups. */
  function ParseStripped(t: string): Option<int> {
    if |t| > 0 && t[0] == '-' then
      match ParseDigits(t[1..])
      case None => None
      case Some(v) => Some(-(v as int))
    else if |t| > 0 && t[0] == '+' then ParseDigits(t[1..])
    else ParseDigits(t)
  }

  /**
   * CPython's default cap on the digits `int()` and `str()` convert in base 10;
   * past it both raise `ValueError`. Underscores and the sign do not count.
   */
  const IntMaxStrDigits := 4300

  function ParseDigits(b: string): Option<nat> {
    if DigitGroups(b) && |DropUnderscores(b)| <= IntMaxStrDigits then Some(DigitsValue(DropUnderscores(b)))
    else None
  }

  /** Whether `str(n)` stays within the digit cap rather than raising. */
  predicate Spellable(n: int) {
    |NatToString(if n < 0 then -n else n)| <= IntMaxStrDigits
  }

  /** `str(n)`, for the integers `Spellable` admits. */
  function IntToString(n: int): string {
    if n < 0 then "-" + NatToString(-n) else NatToString(n)
  }

  const DefaultMaxContentLength := 16 * 1024 * 1024

  /** The `MAX_CONTENT_LENGTH` setting for the environment value `env`. */
  function MaxContentLength(env: Option<string>): (r: int)
    ensures env.None? || env == Some("") ==> r == DefaultMaxContentLength
    ensures r != DefaultMaxContentLength ==> env.Some? && ParseInt(env.value) == Some(r)
  {
    if env.None? || env.value == "" then DefaultMaxContentLength
    else
      match ParseInt(env.value)
      case Some(n) => n
      case None => DefaultMaxContentLength
  }

  lemma {:induction false} DropNoUnderscores(b: string)
    requires AllDigits(b)
    ensures DropUnderscores(b) == b
  {
    if b != [] {
      DropNoUnderscores(b[1..]);
    }
  }

  lemma DigitsParse(digits: string)
    requires |digits| > 0 && AllDigits(digits)
    ensures DigitGroups(digits) && DropUnderscores(digits) == digits
  {
    DropNoUnderscores(digits);
  }

  /** Every integer `str()` can spell reads back as that integer. */
  lemma ParseIntRoundTrip(n: int)
    requires Spellable(n)
    ensures ParseInt(IntToString(n)) == Some(n)
  {
    if n < 0 {
      NatToStringValue(-n);
      ParseNegative(IntToString(n), NatToString(-n));
    } else {
      NatToStringValue(n);
      ParseUnsigned(NatToString(n));
    }
  }

  lemma ParseUnsigned(digits: string)
    requires |digits| > 0 && AllDigits(digits) && |digits| <= IntMaxStrDigits
    ensures ParseInt(digits) == Some(DigitsValue(digits))
  {
    StripUnspaced(digits);
    DigitsParse(digits);
    assert IsDigit(digits[0]);
  }

  lemma ParseNegative(s: string, digits: string)
    requires |digits| > 0 && AllDigits(digits) && |digits| <= IntMaxStrDigits && s == "-" + digits
    ensures ParseInt(s) == Some(-(DigitsValue(digits) as int))
  {
    MinusDigits(digits);
    ParseMinus(s, DigitsValue(digits));
  }

  lemma MinusDigits(digits: string)
    requires |digits| > 0 && AllDigits(digits) && |digits| <= IntMaxStrDigits
    ensures var s := "-" + digits;
      |s| > 0 && s[0] == '-' && ParseDigits(s[1..]) == Some(DigitsValue(digits)) && Strip(s) == s
  {
    var s := "-" + digits;
    assert s[0] == '-' && s[1..] == digits && s[|s| - 1] == digits[|digits| - 1];
    StripUnspaced(s);
    DigitsParse(digits);
  }

  lemma ParseMinus(t: string, v: nat)
    requires |t| > 0 && t[0] == '-' && ParseDigits(t[1..]) == Some(v) && Strip(t) == t
    ensures ParseInt(t) == Some(-(v as int))
  {
  }

  lemma StripUnspaced(s: string)
    requires |s| > 0 && (s[0] == '-' || IsDigit(s[0])) && IsDigit(s[|s| - 1])
    ensures Strip(s) == s
  {
    assert TrimStart(s) == s;
  }

  /**
   * A missing or empty variable, or one `int()` rejects, gives 16 MiB; one it
   * accepts gives its value, whatever its sign.
   */
  lemma MaxContentLengthCases(env: Option<string>)
    ensures env.None? ==> MaxContentLength(env) == DefaultMaxContentLength
    ensures env.Some? && ParseInt(env.value).None? ==> MaxContentLength(env) == DefaultMaxContentLength
    ensures env.Some? && ParseInt(env.value).Some? ==> MaxContentLength(env) == ParseInt(env.value).value
  {
    if env == Some("") {
      assert Strip("") == "";
    }
  }

  /** Setting the variable to the spelling of any integer `str()` can spell sets the limit to that integer. */
  lemma MaxContentLengthOfInt(n: int)
    requires Spellable(n)
    ensures MaxContentLength(Some(IntToString(n))) == n
  {
    ParseIntRoundTrip(n);
  }

  /** A run of more than 4300 digits is refused, and the limit falls back to 16 MiB. */
  lemma TooManyDigits(digits: string)
    requires AllDigits(digits) && |digits| > IntMaxStrDigits
    ensures ParseInt(digits) == None
    ensures MaxContentLength(Some(digits)) == DefaultMaxContentLength
  {
    StripUnspaced(digits);
    DropNoUnderscores(digits);
  }
}
