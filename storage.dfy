/**
 * Validation and naming of an uploaded attachment (app/utils/storage.py).
 * werkzeug's `secure_filename` is a parameter (its output is ASCII), the 8
 * random bytes of `secrets.token_hex(8)` are a parameter, and the size the
 * saved file has on disk is a parameter; writing the file is not modelled.
 */
module Storage {
  import opened Common

  newtype Byte = x: int | 0 <= x < 256

  /** The parts of the request's `FileStorage` that are read; "" stands for a missing value. */
  datatype Upload = Upload(filename: string, mimetype: string)

  /** The dictionary `save_upload` returns. */
  datatype Saved = Saved(key: string, size: nat, mime: string, original: string)

  datatype UploadError = NoFile | InvalidName | UnsupportedType

  /** The `ValueError` message for each rejection. */
  function Message(e: UploadError): string {
    match e
    case NoFile => "Select a file to upload."
    case InvalidName => "Invalid file name."
    case UnsupportedType => "Unsupported file type."
  }

  const AllowedDefault: set<string> := {"png", "jpg", "jpeg", "pdf"}
  const DefaultMime := "application/octet-stream"

  // ------------------------------------------------------------ extension

  /** `str.lower()` on the ASCII text `secure_filename` returns. */
  function Lower(s: string): (r: string)
    ensures |r| == |s|
    ensures forall i :: 0 <= i < |s| ==> r[i] == if 'A' <= s[i] <= 'Z' then (s[i] as int + 32) as char else s[i]
  {
    if s == [] then [] else Lower(s[..|s| - 1]) + [if 'A' <= s[|s| - 1] <= 'Z' then (s[|s| - 1] as int + 32) as char else s[|s| - 1]]
  }

  /** The text after the last "." of `s`; `s` itself when it has no ".". */
  function AfterLastDot(s: string): (r: string)
    ensures '.' !in r
    ensures |r| <= |s| && r == s[|s| - |r|..]
    ensures '.' !in s ==> r == s
    ensures '.' in s ==> |r| < |s| && s[|s| - |r| - 1] == '.'
  {
    if s == [] then []
    else if s[|s| - 1] == '.' then []
    else
      AfterLastDot(s[..|s| - 1]) + [s[|s| - 1]]
  }

  /** `filename.rsplit(".", 1)[-1].lower() if "." in filename else ""`. */
  function Extension(filename: string): (r: string)
    ensures '.' !in filename ==> r == ""
    ensures '.' in filename ==> |r| < |filename|
  {
    if '.' in filename then Lower(AfterLastDot(filename)) else ""
  }

  // ------------------------------------------------------------ key

  function HexDigit(n: int): (c: char)
    requires 0 <= n < 16
  {
    if n < 10 then (48 + n) as char else (87 + n) as char
  }

  /** `secrets.token_hex`: two lowercase hex digits per byte. */
  function HexEncode(bytes: seq<Byte>): (r: string)
    ensures |r| == 2 * |bytes|
  {
    if bytes == [] then []
    else HexEncode(bytes[..|bytes| - 1]) + [HexDigit(bytes[|bytes| - 1] as int / 16), HexDigit(bytes[|bytes| - 1] as int % 16)]
  }

  predicate IsHex(c: char) {
    '0' <= c <= '9' || 'a' <= c <= 'f'
  }

  function HexValue(c: char): int
    requires IsHex(c)
  {
    if c <= '9' then c as int - 48 else c as int - 87
  }

  /** Reads lowercase hex text back into bytes. */
  function HexDecode(s: string): Option<seq<Byte>>
    decreases |s|
  {
    if s == [] then Some([])
    else if |s| % 2 == 1 || !IsHex(s[|s| - 2]) || !IsHex(s[|s| - 1]) then None
    else
      match HexDecode(s[..|s| - 2])
      case None => None
      case Some(front) => Some(front + [(HexValue(s[|s| - 2]) * 16 + HexValue(s[|s| - 1])) as Byte])
  }

  /** The storage key: `f"{secrets.token_hex(8)}_{filename}"`. */
  function StorageKey(token: seq<Byte>, filename: string): (r: string)
    ensures |r| == 2 * |token| + 1 + |filename|
    ensures HexDecode(r[..2 * |token|]) == Some(token)
    ensures r[2 * |token|] == '_' && r[2 * |token| + 1..] == filename
  {
    HexRoundTrip(token);
    assert (HexEncode(token) + "_" + filename)[..2 * |token|] == HexEncode(token);
    HexEncode(token) + "_" + filename
  }

  // ------------------------------------------------------------ save_upload

  /**
   * `save_upload(file_storage)`. `file` is `None` when the form has no file;
   * `allowedConfig` is the `ALLOWED_EXTENSIONS` setting, `None` when unset.
   */
  function SaveUpload(file: Option<Upload>, secure: string -> string, allowedConfig: Option<set<string>>,
                      token: seq<Byte>, storedSize: nat): (r: Result<Saved, UploadError>)
    requires |token| == 8
    ensures r.Ok? ==> file.Some? && r.value.original == secure(file.value.filename) && r.value.original != ""
    ensures r.Ok? ==> r.value.size == storedSize
  {
    if file.None? || file.value.filename == "" then Err(NoFile)
    else
      var filename := secure(file.value.filename);
      if filename == "" then Err(InvalidName)
      else
        var allowed := allowedConfig.GetOr(AllowedDefault);
        var ext := Extension(filename);
        if allowed != {} && ext !in allowed then Err(UnsupportedType)
        else
          var mime := if file.value.mimetype != "" then file.value.mimetype else DefaultMime;
          Ok(Saved(StorageKey(token, filename), storedSize, mime, filename))
  }

  // ------------------------------------------------------------ properties

  /** The extension is the lower-cased text after the last ".", or "" when there is none. */
  lemma ExtensionMeaning(filename: string)
    ensures '.' !in filename ==> Extension(filename) == ""
    ensures '.' in filename ==> exists stem, raw ::
      filename == stem + "." + raw && '.' !in raw && Extension(filename) == Lower(raw)
  {
    if '.' in filename {
      var raw := AfterLastDot(filename);
      var stem := filename[..|filename| - |raw| - 1];
      assert filename == stem + "." + raw;
    }
  }

  /** The extension never holds a "." or an upper-case ASCII letter. */
  lemma ExtensionIsLowerCase(filename: string)
    ensures '.' !in Extension(filename)
    ensures forall i :: 0 <= i < |Extension(filename)| ==> !('A' <= Extension(filename)[i] <= 'Z')
  {
    if '.' in filename {
      var raw := AfterLastDot(filename);
      var e := Lower(raw);
      forall i | 0 <= i < |e| ensures e[i] != '.' {
        assert raw[i] != '.' by {
          assert raw[i] in raw;
        }
      }
    }
  }

  lemma HexPair(b: Byte)
    ensures IsHex(HexDigit(b as int / 16)) && IsHex(HexDigit(b as int % 16))
    ensures HexValue(HexDigit(b as int / 16)) * 16 + HexValue(HexDigit(b as int % 16)) == b as int
  {
  }

  /** Hex text reads back as the bytes it was made from. */
  lemma {:induction false} HexRoundTrip(bytes: seq<Byte>)
    ensures HexDecode(HexEncode(bytes)) == Some(bytes)
    decreases |bytes|
  {
    if bytes != [] {
      var front := bytes[..|bytes| - 1];
      var last := bytes[|bytes| - 1];
      var s := HexEncode(bytes);
      var hi, lo := HexDigit(last as int / 16), HexDigit(last as int % 16);
      assert s == HexEncode(front) + [hi, lo];
      assert s[..|s| - 2] == HexEncode(front);
      assert s[|s| - 2] == hi && s[|s| - 1] == lo;
      HexPair(last);
      HexRoundTrip(front);
      assert front + [last] == bytes;
    }
  }

  lemma {:induction false} HexEncodeIsHex(bytes: seq<Byte>)
    ensures forall i :: 0 <= i < |HexEncode(bytes)| ==> IsHex(HexEncode(bytes)[i])
    decreases |bytes|
  {
    if bytes != [] {
      HexEncodeIsHex(bytes[..|bytes| - 1]);
    }
  }

  /**
   * An accepted upload's key is 16 lowercase hex digits, which read back as
   * the random token, then "_", then the sanitized file name.
   */
  lemma KeyLayout(file: Option<Upload>, secure: string -> string, allowedConfig: Option<set<string>>,
                  token: seq<Byte>, storedSize: nat)
    requires |token| == 8
    requires SaveUpload(file, secure, allowedConfig, token, storedSize).Ok?
    ensures var key := SaveUpload(file, secure, allowedConfig, token, storedSize).value.key;
      && |key| > 17
      && (forall i :: 0 <= i < 16 ==> IsHex(key[i]))
      && HexDecode(key[..16]) == Some(token)
      && key[16] == '_'
      && key[17..] == secure(file.value.filename)
  {
    var key := SaveUpload(file, secure, allowedConfig, token, storedSize).value.key;
    var name := secure(file.value.filename);
    assert key == HexEncode(token) + "_" + name;
    assert key[..16] == HexEncode(token);
    HexEncodeIsHex(token);
    HexRoundTrip(token);
  }

  /**
   * The outcome, case by case: no file or no file name; a name that sanitizes
   * to nothing; an extension outside a non-empty allow-list (the default one
   * when none is configured); otherwise success, with the client's MIME type or
   * "application/octet-stream".
   */
  lemma SaveUploadOutcome(file: Option<Upload>, secure: string -> string, allowedConfig: Option<set<string>>,
                          token: seq<Byte>, storedSize: nat)
    requires |token| == 8
    ensures var r := SaveUpload(file, secure, allowedConfig, token, storedSize);
      && (r == Err(NoFile) <==> file.None? || file.value.filename == "")
      && (r == Err(InvalidName) <==> file.Some? && file.value.filename != "" && secure(file.value.filename) == "")
      && (r == Err(UnsupportedType) <==>
            file.Some? && file.value.filename != "" && secure(file.value.filename) != ""
            && allowedConfig.GetOr(AllowedDefault) != {}
            && Extension(secure(file.value.filename)) !in allowedConfig.GetOr(AllowedDefault))
      && (r.Ok? ==> r.value.mime == (if file.value.mimetype == "" then DefaultMime else file.value.mimetype))
  {
  }

  /** With the default allow-list, only png, jpg, jpeg and pdf names get through, in any letter case. */
  lemma DefaultAllowList(file: Option<Upload>, secure: string -> string, token: seq<Byte>, storedSize: nat)
    requires |token| == 8
    requires SaveUpload(file, secure, None, token, storedSize).Ok?
    ensures Extension(secure(file.value.filename)) in AllowedDefault
    ensures '.' in secure(file.value.filename)
  {
    UploadAllowed(file, secure, None, token, storedSize);
    DefaultListShape();
  }

  /** The default list is not empty and has no empty extension. */
  lemma DefaultListShape()
    ensures AllowedDefault != {} && "" !in AllowedDefault
  {
    assert "png" in AllowedDefault;
  }

  /** An accepted upload's extension is on the allow-list, unless that list is empty. */
  lemma UploadAllowed(file: Option<Upload>, secure: string -> string, allowedConfig: Option<set<string>>,
                      token: seq<Byte>, storedSize: nat)
    requires |token| == 8
    requires SaveUpload(file, secure, allowedConfig, token, storedSize).Ok?
    ensures var allowed := allowedConfig.GetOr(AllowedDefault);
      allowed == {} || Extension(secure(file.value.filename)) in allowed
  {
  }
}
