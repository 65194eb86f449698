/**
 * src/uploads/uploads.service.ts: the object keys and URLs of uploaded files.
 * The bucket's public base URL is a parameter (it is read from configuration
 * once); the S3 presigner, the clock and `Math.random()` are parameters too.
 */
module Uploads {
  import opened Common

  /** The characters `String.prototype.trim()` removes (ECMAScript WhiteSpace and LineTerminator). */
  predicate IsJsSpace(c: char)
  {
    var n := c as int;
    || 0x09 <= n <= 0x0D || n == 0x20 || n == 0xA0 || n == 0x1680
    || 0x2000 <= n <= 0x200A || n == 0x2028 || n == 0x2029 || n == 0x202F
    || n == 0x205F || n == 0x3000 || n == 0xFEFF
  }

  /** `s` without its leading whitespace. */
  function TrimStart(s: string): (r: string)
    ensures |r| <= |s| && r == s[|s| - |r|..]
    ensures forall i :: 0 <= i < |s| - |r| ==> IsJsSpace(s[i])
    ensures r == [] || !IsJsSpace(r[0])
  {
    if s != [] && IsJsSpace(s[0]) then TrimStart(s[1..]) else s
  }

  /** `s` without its trailing whitespace. */
  function TrimEnd(s: string): (r: string)
    ensures |r| <= |s| && r == s[..|r|]
    ensures forall i :: |r| <= i < |s| ==> IsJsSpace(s[i])
    ensures r == [] || !IsJsSpace(r[|r| - 1])
  {
    if s != [] && IsJsSpace(s[|s| - 1]) then TrimEnd(s[..|s| - 1]) else s
  }

  /** `s.replace(/^\/+/, '')`: `s` without its leading slashes. */
  function StripLeadingSlashes(s: string): (r: string)
    ensures |r| <= |s| && r == s[|s| - |r|..]
    ensures forall i :: 0 <= i < |s| - |r| ==> s[i] == '/'
    ensures r == [] || r[0] != '/'
  {
    if s != [] && s[0] == '/' then StripLeadingSlashes(s[1..]) else s
  }

  /** `r` is `s` with `a` leading and `b` trailing whitespace characters cut off. */
  predicate SpaceCut(s: string, r: string, a: nat, b: nat)
  {
    && a + b <= |s| && r == s[a..|s| - b]
    && (forall i :: 0 <= i < a ==> IsJsSpace(s[i]))
    && (forall i :: |s| - b <= i < |s| ==> IsJsSpace(s[i]))
  }

  /** `String.prototype.trim()` */
  function Trim(s: string): (r: string)
    ensures r == [] <==> forall i :: 0 <= i < |s| ==> IsJsSpace(s[i])
    ensures r != [] ==> !IsJsSpace(r[0]) && !IsJsSpace(r[|r| - 1])
    ensures exists a: nat, b: nat :: SpaceCut(s, r, a, b)
  {
    var front := TrimStart(s);
    var r := TrimEnd(front);
    TrimFacts(s, front, r);
    r
  }

  /** Cutting leading whitespace, then trailing whitespace, is a whitespace cut at both ends. */
  lemma TrimFacts(s: string, front: string, r: string)
    requires |front| <= |s| && front == s[|s| - |front|..]
    requires forall i :: 0 <= i < |s| - |front| ==> IsJsSpace(s[i])
    requires front == [] || !IsJsSpace(front[0])
    requires |r| <= |front| && r == front[..|r|]
    requires forall i :: |r| <= i < |front| ==> IsJsSpace(front[i])
    requires r == [] || !IsJsSpace(r[|r| - 1])
    ensures r == [] <==> forall i :: 0 <= i < |s| ==> IsJsSpace(s[i])
    ensures r != [] ==> !IsJsSpace(r[0]) && !IsJsSpace(r[|r| - 1])
    ensures SpaceCut(s, r, |s| - |front|, |front| - |r|)
  {
    var a, b := |s| - |front|, |front| - |r|;
    forall i | a <= i < |s| ensures s[i] == front[i - a] {
    }
    if r == [] {
      assert front == [];
    } else {
      assert r[0] == front[0] == s[a];
    }
    assert r == s[a..|s| - b];
  }

  lemma TrimNoSpace(s: string)
    requires forall i :: 0 <= i < |s| ==> !IsJsSpace(s[i])
    ensures Trim(s) == s
  {
    var front := TrimStart(s);
    assert front == s;
  }

  const KeyRequired := "File key is required"

  /** `normalizeKey(key)`: trim, refuse an empty key, drop leading slashes. */
  function NormalizeKey(key: string): (r: Result<string>)
    ensures r.Err? <==> forall i :: 0 <= i < |key| ==> IsJsSpace(key[i])
    ensures r.Err? ==> r.error == BadRequest(KeyRequired)
    ensures r.Ok? ==> r.value == [] || r.value[0] != '/'
    ensures r.Ok? ==> |r.value| <= |Trim(key)| && r.value == Trim(key)[|Trim(key)| - |r.value|..]
    ensures r.Ok? ==> forall i :: 0 <= i < |Trim(key)| - |r.value| ==> Trim(key)[i] == '/'
  {
    var trimmed := Trim(key);
    if trimmed == [] then Err(BadRequest(KeyRequired))
    else Ok(StripLeadingSlashes(trimmed))
  }

  /** A normalized key that does not start with whitespace normalizes to itself. */
  lemma NormalizeKeyIdempotent(key: string, k: string)
    requires NormalizeKey(key) == Ok(k)
    requires k != [] && !IsJsSpace(k[0])
    ensures NormalizeKey(k) == Ok(k)
  {
    var t := Trim(key);
    assert k[|k| - 1] == t[|t| - 1];
    var front := TrimStart(k);
    assert front == k;
    assert TrimEnd(k) == k;
  }

  /** `buildPublicUrl(key)`: the public base, one slash, and the normalized key. */
  function BuildPublicUrl(publicBase: string, key: string): (r: Result<string>)
    ensures r.Err? <==> NormalizeKey(key).Err?
    ensures r.Err? ==> r.error == BadRequest(KeyRequired)
  {
    match NormalizeKey(key)
    case Err(e) => Err(e)
    case Ok(k) => Ok(publicBase + "/" + k)
  }

  /** The URL is the base, exactly one slash, then the key: never a doubled slash after the base. */
  lemma PublicUrlShape(publicBase: string, key: string)
    requires BuildPublicUrl(publicBase, key).Ok?
    ensures var url := BuildPublicUrl(publicBase, key).value;
      && |url| >= |publicBase| + 1
      && url[..|publicBase| + 1] == publicBase + "/"
      && url[|publicBase| + 1..] == NormalizeKey(key).value
      && (|url| > |publicBase| + 1 ==> url[|publicBase| + 1] != '/')
  {
    var url := BuildPublicUrl(publicBase, key).value;
    var k := NormalizeKey(key).value;
    assert url == (publicBase + "/") + k;
  }

  /**
   * `buildPublicUrls(keys)`: every key mapped in order. `map` stops at the
   * first key `buildPublicUrl` refuses, and every refusal is the same exception.
   */
  function BuildPublicUrls(publicBase: string, keys: seq<string>): (r: Result<seq<string>>)
    ensures r.Ok? <==> forall i :: 0 <= i < |keys| ==> BuildPublicUrl(publicBase, keys[i]).Ok?
    ensures r.Ok? ==> |r.value| == |keys|
    ensures r.Ok? ==> forall i :: 0 <= i < |keys| ==> BuildPublicUrl(publicBase, keys[i]) == Ok(r.value[i])
    ensures r.Err? ==> r.error == BadRequest(KeyRequired)
  {
    if forall i :: 0 <= i < |keys| ==> BuildPublicUrl(publicBase, keys[i]).Ok? then
      Ok(seq(|keys|, i requires 0 <= i < |keys| => BuildPublicUrl(publicBase, keys[i]).value))
    else
      Err(BadRequest(KeyRequired))
  }

  const TestBase := "https://cdn.example.com"

  lemma SlashedNoSpace(k: string)
    requires forall i :: 0 <= i < |k| ==> !IsJsSpace(k[i])
    ensures forall i :: 0 <= i < |"/" + k| ==> !IsJsSpace(("/" + k)[i])
  {
    var slashed := "/" + k;
    forall i | 0 <= i < |slashed| ensures !IsJsSpace(slashed[i]) {
      if i > 0 { assert slashed[i] == k[i - 1]; }
    }
  }

  lemma DropOneSlash(k: string)
    requires k != [] && k[0] != '/'
    ensures StripLeadingSlashes("/" + k) == k
  {
    assert ("/" + k)[1..] == k;
  }

  /** A key that starts with neither whitespace nor a slash normalizes to its trimmed self. */
  lemma PlainStartNormalizes(key: string)
    requires key != [] && !IsJsSpace(key[0]) && key[0] != '/'
    ensures NormalizeKey(key) == Ok(Trim(key))
  {
    assert TrimStart(key) == key;
    var t := Trim(key);
    assert t != [] && t[0] == key[0];
    assert StripLeadingSlashes(t) == t;
  }

  /**
   * A key without whitespace loses its leading slash and nothing else, so
   * `/vehicle-image/1/file.jpg` and `vehicle-image/1/file.jpg` give the same URL
   * (the first two cases of uploads.service.spec.ts are instances).
   */
  lemma PlainKeyUrl(publicBase: string, k: string)
    requires k != [] && k[0] != '/'
    requires forall i :: 0 <= i < |k| ==> !IsJsSpace(k[i])
    ensures BuildPublicUrl(publicBase, k) == Ok(publicBase + "/" + k)
    ensures BuildPublicUrl(publicBase, "/" + k) == Ok(publicBase + "/" + k)
  {
    PlainKeyNormalizes(k);
    SlashedKeyNormalizes(k);
  }

  lemma PlainKeyNormalizes(k: string)
    requires k != [] && k[0] != '/'
    requires forall i :: 0 <= i < |k| ==> !IsJsSpace(k[i])
    ensures NormalizeKey(k) == Ok(k)
  {
    TrimNoSpace(k);
    PlainStartNormalizes(k);
  }

  lemma SlashedKeyNormalizes(k: string)
    requires k != [] && k[0] != '/'
    requires forall i :: 0 <= i < |k| ==> !IsJsSpace(k[i])
    ensures NormalizeKey("/" + k) == Ok(k)
  {
    SlashedNoSpace(k);
    TrimNoSpace("/" + k);
    DropOneSlash(k);
  }

  /** A blank key is refused (third case). */
  lemma BlankKeyRefused()
    ensures BuildPublicUrl(TestBase, "   ") == Err(BadRequest(KeyRequired))
  {
  }

  // ---------------------------------------------------------------------
  // Presigned upload
  // ---------------------------------------------------------------------

  /** The `FileType` enum of GetPresignedUrlDto: the first segment of every key. */
  datatype FileType = VehicleImage | License

  function FileTypeText(t: FileType): (s: string)
    ensures s != [] && (s[0] == 'v' || s[0] == 'l')
  {
    match t
    case VehicleImage => "vehicle-image"
    case License => "license"
  }

  /** `fileName.split(".").pop()`: the text after the last dot (all of it if there is none). */
  function Extension(fileName: string): (ext: string)
    ensures '.' !in ext
    ensures |ext| <= |fileName| && ext == fileName[|fileName| - |ext|..]
    ensures ext == fileName || fileName[|fileName| - |ext| - 1] == '.'
  {
    if fileName == [] then []
    else if fileName[|fileName| - 1] == '.' then []
    else Extension(fileName[..|fileName| - 1]) + [fileName[|fileName| - 1]]
  }

  datatype PresignedUpload = PresignedUpload(uploadUrl: string, publicUrl: string, key: string)

  /** `<fileType>/<userId>/`: the folder of an uploader's files of one type. */
  function KeyPrefix(userId: nat, fileType: FileType): (p: string)
    ensures |p| > |FileTypeText(fileType)| && p[..|FileTypeText(fileType)|] == FileTypeText(fileType)
  {
    var t := FileTypeText(fileType);
    var p := t + ("/" + ShowNat(userId) + "/");
    assert p[..|t|] == t;
    p
  }

  /** `<timestamp>-<random>.`: what comes between the folder and the extension. */
  function Stem(now: nat, random: string): (s: string)
    ensures |s| >= 3 && s[|s| - 1] == '.'
  {
    ShowNat(now) + "-" + random + "."
  }

  /** The object key `<fileType>/<userId>/<timestamp>-<random>.<extension>`. */
  function ObjectKey(userId: nat, fileType: FileType, now: nat, random: string, fileName: string): (key: string)
    ensures key != [] && key[0] == FileTypeText(fileType)[0]
    ensures !IsJsSpace(key[0]) && key[0] != '/'
  {
    var prefix := KeyPrefix(userId, fileType);
    var key := prefix + Stem(now, random) + Extension(fileName);
    assert key[0] == prefix[0] == FileTypeText(fileType)[0];
    key
  }

  /** The key is filed under the file type and the uploader, and keeps the uploaded file's extension. */
  lemma ObjectKeyShape(userId: nat, fileType: FileType, now: nat, random: string, fileName: string)
    ensures var key := ObjectKey(userId, fileType, now, random, fileName);
      && |key| > |KeyPrefix(userId, fileType)|
      && key[..|KeyPrefix(userId, fileType)|] == KeyPrefix(userId, fileType)
      && Extension(key) == Extension(fileName)
  {
    var prefix, stem, ext := KeyPrefix(userId, fileType), Stem(now, random), Extension(fileName);
    ExtensionAfterDot(prefix + stem, ext);
    PrefixKept(prefix, stem, ext);
  }

  lemma PrefixKept(prefix: string, stem: string, ext: string)
    ensures (prefix + stem + ext)[..|prefix|] == prefix
  {
    assert prefix + stem + ext == prefix + (stem + ext);
  }

  /** Text ending in `.`, then dot-free text: the latter is the extension. */
  lemma ExtensionAfterDot(front: string, ext: string)
    requires front != [] && front[|front| - 1] == '.' && '.' !in ext
    ensures Extension(front + ext) == ext
  {
    var s := front + ext;
    assert s[|front| - 1] == '.';
    assert s[|front|..] == ext;
    ExtensionOfKey(s, ext, |front| - 1);
  }

  /**
   * `getPresignedUrl(userId, dto)`: `presign` stands for the S3 presigner (one
   * hour), `now` for `Date.now()` and `random` for
   * `Math.random().toString(36).substring(7)`. It never throws: the key starts
   * with the file type, so it is never blank and has no leading slash.
   */
  function GetPresignedUrl(
    publicBase: string, presign: string -> string,
    userId: nat, fileName: string, fileType: FileType, now: nat, random: string
  ): (r: Result<PresignedUpload>)
    ensures r.Ok?
    ensures r.value.key == ObjectKey(userId, fileType, now, random, fileName)
    ensures r.value.uploadUrl == presign(r.value.key)
    ensures r.value.publicUrl == publicBase + "/" + Trim(r.value.key)
  {
    var key := ObjectKey(userId, fileType, now, random, fileName);
    PlainStartNormalizes(key);
    match BuildPublicUrl(publicBase, key)
    case Err(e) => Err(e)
    case Ok(url) => Ok(PresignedUpload(presign(key), url, key))
  }

  /** A string that ends in `.` followed by dot-free text has that text as its extension. */
  lemma {:induction false} ExtensionOfKey(s: string, ext: string, dot: int)
    requires 0 <= dot < |s| && s[dot] == '.' && s[dot + 1..] == ext && '.' !in ext
    ensures Extension(s) == ext
    decreases |s| - dot
  {
    if ext != [] {
      var init := s[..|s| - 1];
      assert init[dot + 1..] == ext[..|ext| - 1];
      ExtensionOfKey(init, ext[..|ext| - 1], dot);
      assert s == init + [s[|s| - 1]];
    }
  }
}
