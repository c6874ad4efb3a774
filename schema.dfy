/** The schema file handler (schema.go). It maps `/schema/:version/<filepath>`
    onto the file `/v<version>/<filepath>` of the schema directory, rejects a
    version that is not an integer of at least 1 with 404, and chooses the
    response `Content-Type` from the file's extension. */
module Schema {
  import opened Optional
  import opened Strconv
  import opened Text
  import opened Http

  /** The route parameters httptreemux extracted from the request path. */
  type Params = map<string, string>

  /** A parameter's value, "" when the route did not bind it. */
  function Param(params: Params, key: string): (v: string)
    ensures key in params ==> v == params[key]
    ensures key !in params ==> v == ""
  {
    if key in params then params[key] else ""
  }

  /** Whether `http.NewRequest` accepts the rewritten path as a URL; the URL
      parser is not part of this model. */
  type UrlCheck = string -> bool

  /** What the handler does with a request. */
  datatype Outcome =
    | NotFound                 // 404 written, the file server is not called
    | Malformed(file: string)  // `http.NewRequest` failed: the handler panics
    | Delegated(file: string)  // the file server is called on `file`

  /** The version the route names, when it is an integer of at least 1. */
  function SchemaVersion(params: Params): (r: Option<int>)
    ensures r.Some? <==> Atoi(Param(params, "version")).Some? && Atoi(Param(params, "version")).value >= 1
    ensures r.Some? ==> r == Atoi(Param(params, "version"))
  {
    match Atoi(Param(params, "version"))
    case None => None
    case Some(v) => if v < 1 then None else Some(v)
  }

  /** The path the request is rewritten to: `fmt.Sprintf("/v%d/%s", ...)`. */
  function FilePath(version: int, filepath: string): string
  {
    "/v" + Itoa(version) + "/" + filepath
  }

  function Decide(params: Params, urlOk: UrlCheck): Outcome
  {
    match SchemaVersion(params)
    case None => NotFound
    case Some(v) =>
      var file := FilePath(v, Param(params, "filepath"));
      if urlOk(file) then Delegated(file) else Malformed(file)
  }

  /** The file is YAML when its case-folded extension is ".yaml" or ".yml". */
  predicate IsYaml(filepath: string)
  {
    ToLower(Ext(filepath)) == ".yaml" || ToLower(Ext(filepath)) == ".yml"
  }

  /** The response header handed to the file server: `Content-Type` is
      octet-stream for YAML and removed for everything else. */
  function Typed(h: Header, filepath: string): (y: Header)
    ensures IsYaml(filepath) ==> HeaderContentType in y && y[HeaderContentType] == [ContentTypeOctetStream]
    ensures !IsYaml(filepath) ==> HeaderContentType !in y
    ensures forall k :: k != HeaderContentType ==> (k in y <==> k in h) && (k in h ==> y[k] == h[k])
  {
    if IsYaml(filepath) then Set(h, HeaderContentType, ContentTypeOctetStream)
    else Del(h, HeaderContentType)
  }

  /** `schemaHandler.ServeHTTP`, up to the call into the file server; returns
      what the handler does next. */
  method ServeHTTP(rw: ResponseWriter, params: Params, urlOk: UrlCheck) returns (o: Outcome)
    modifies rw
    ensures o == Decide(params, urlOk)
    ensures o.NotFound? ==>
      && rw.header == old(rw.header) && rw.written && rw.body == old(rw.body)
      && rw.status == (if old(rw.written) then old(rw.status) else StatusNotFound)
    ensures o.Malformed? ==>
      rw.header == old(rw.header) && rw.written == old(rw.written) && rw.status == old(rw.status) && rw.body == old(rw.body)
    ensures o.Delegated? ==>
      && rw.header == Typed(old(rw.header), Param(params, "filepath"))
      && rw.written == old(rw.written) && rw.status == old(rw.status) && rw.body == old(rw.body)
  {
    var versionStr := Param(params, "version");
    var version := Atoi(versionStr);
    if version.None? || version.value < 1 {
      rw.WriteHeader(StatusNotFound);
      return NotFound;
    }
    var filepath := Param(params, "filepath");
    var file := FilePath(version.value, filepath);
    if !urlOk(file) {
      return Malformed(file);
    }
    var ext := ToLower(Ext(filepath));
    if ext == ".yaml" || ext == ".yml" {
      rw.header := Set(rw.header, HeaderContentType, ContentTypeOctetStream);
    } else {
      rw.header := Del(rw.header, HeaderContentType);
    }
    o := Delegated(file);
  }

  // ---------------------------------------------------------------------------
  // Properties.

  /** The file server is reached only for a version of at least 1, and the
      rewritten path spells that version canonically, so its version segment
      parses back to the version the route named. */
  lemma RewrittenPath(params: Params, urlOk: UrlCheck)
    ensures Decide(params, urlOk) == NotFound <==> SchemaVersion(params).None?
    ensures Decide(params, urlOk).Delegated? ==>
      var v := Atoi(Param(params, "version")).value;
      var file := Decide(params, urlOk).file;
      && v >= 1
      && file == "/v" + Itoa(v) + "/" + Param(params, "filepath")
      && Atoi(file[2..2 + |Itoa(v)|]) == Some(v)
      && AllDigits(file[2..2 + |Itoa(v)|])
  {
    if Decide(params, urlOk).Delegated? {
      var v := Atoi(Param(params, "version")).value;
      var file := Decide(params, urlOk).file;
      assert file[2..2 + |Itoa(v)|] == Itoa(v);
      ItoaRoundTrip(v);
    }
  }

  /** The cases of schema_test.go (versions "v", "w1" and "v0" are not found),
      a missing version, and a non-canonical spelling that is normalised. */
  lemma SchemaTestCases(urlOk: UrlCheck)
    ensures Decide(map["version" := "v"], urlOk) == NotFound
    ensures Decide(map["version" := "w1"], urlOk) == NotFound
    ensures Decide(map["version" := "v0"], urlOk) == NotFound
    ensures Decide(map["version" := "0"], urlOk) == NotFound
    ensures Decide(map[], urlOk) == NotFound
    ensures urlOk("/v1/api.yaml") ==>
      Decide(map["version" := "+01", "filepath" := "api.yaml"], urlOk) == Delegated("/v1/api.yaml")
  {
    assert !IsDigit("v"[0]);
    assert !IsDigit("w1"[0]);
    assert !IsDigit("v0"[0]);
    assert Value("0") == 0 by { assert "0"[..0] == []; }
    CanonicalSpelling();
    var params := map["version" := "+01", "filepath" := "api.yaml"];
    assert SchemaVersion(params) == Some(1);
    assert FilePath(1, "api.yaml") == "/v1/api.yaml";
  }

  /** `path.Ext` of a path ending in a dot and a dot-free, slash-free word is
      that dot and word. */
  lemma ExtOfSuffix(p: string, w: string)
    requires '.' !in w && '/' !in w
    ensures Ext(p + "." + w) == "." + w
  {
    var s := p + "." + w;
    var j := |p|;
    assert |s| == j + 1 + |w| && s[j] == '.';
    forall k | j < k < |s| ensures s[k] != '.' && s[k] != '/' {
      var c := w[k - j - 1];
      assert s[k] == c && c in w;
    }
    ExtBeforeOfWord(s, j, |s|);
    assert s[j..] == "." + w;
  }

  /** The extension test is a case-insensitive test on the path's suffix:
      the path ends in ".yaml" or ".yml", whatever the case of its letters. */
  lemma IsYamlIff(filepath: string)
    ensures IsYaml(filepath) <==>
      (|filepath| >= 5 && ToLower(filepath[|filepath| - 5..]) == ".yaml")
      || (|filepath| >= 4 && ToLower(filepath[|filepath| - 4..]) == ".yml")
  {
    var n := |filepath|;
    if |filepath| >= 5 && ToLower(filepath[n - 5..]) == ".yaml" {
      FoldedSuffixExt(filepath, ".yaml");
    } else if |filepath| >= 4 && ToLower(filepath[n - 4..]) == ".yml" {
      FoldedSuffixExt(filepath, ".yml");
    }
    if IsYaml(filepath) {
      YamlHasSuffix(filepath);
    }
  }

  /** A YAML path ends in its extension, which folds to ".yaml" or ".yml". */
  lemma YamlHasSuffix(filepath: string)
    requires IsYaml(filepath)
    ensures (|filepath| >= 5 && ToLower(filepath[|filepath| - 5..]) == ".yaml")
      || (|filepath| >= 4 && ToLower(filepath[|filepath| - 4..]) == ".yml")
  {
    var e := Ext(filepath);
    assert |ToLower(e)| == |e|;
    assert e == filepath[|filepath| - |e|..];
  }

  /** A suffix that folds to a dot followed by lower-case letters is the
      path's extension. */
  lemma FoldedSuffixExt(p: string, x: string)
    requires 2 <= |x| <= |p| && x[0] == '.'
    requires forall i :: 0 < i < |x| ==> 'a' <= x[i] <= 'z'
    requires ToLower(p[|p| - |x|..]) == x
    ensures Ext(p) == p[|p| - |x|..]
  {
    var k := |x|;
    var t := p[|p| - k..];
    forall i | |p| - k <= i < |p| ensures LowerChar(p[i]) == x[i - (|p| - k)] {
      assert p[i] == t[i - (|p| - k)];
    }
    SuffixExt(p, k);
  }

  /** A suffix of length `k` that folds to a dot and `k - 1` letters is the
      path's extension. */
  lemma SuffixExt(p: string, k: nat)
    requires 2 <= k <= |p|
    requires LowerChar(p[|p| - k]) == '.'
    requires forall i :: |p| - k < i < |p| ==> 'a' <= LowerChar(p[i]) <= 'z'
    ensures Ext(p) == p[|p| - k..]
  {
    forall i | |p| - k < i < |p| ensures p[i] != '.' && p[i] != '/' {
      assert 'a' <= LowerChar(p[i]) <= 'z';
    }
    ExtBeforeOfWord(p, |p| - k, |p|);
  }

  /** ".yaml" in lower case is YAML. */
  lemma YamlCase()
    ensures IsYaml("api.yaml")
  {
    ExtBeforeOfWord("api.yaml", 3, 8);
    assert "api.yaml"[3..8] == ".yaml";
  }

  /** ".YML" in upper case is YAML too. */
  lemma UpperYmlCase()
    ensures IsYaml("v2/API.YML")
  {
    ExtBeforeOfWord("v2/API.YML", 6, 10);
    assert "v2/API.YML"[6..10] == ".YML";
    assert ToLower(".YML") == ".yml";
  }

  /** A JSON file is not YAML. */
  lemma JsonCase()
    ensures !IsYaml("api.json")
  {
    ExtBeforeOfWord("api.json", 3, 8);
    assert "api.json"[3..8] == ".json";
    assert ToLower(".json")[1] == 'j';
  }

  /** A dot that is only in a directory name, and a bare word, give no
      extension at all. */
  lemma NoExtensionCases()
    ensures !IsYaml("docs.yml/readme") && !IsYaml("yml")
  {
    ExtBeforeNoDot("docs.yml/readme", 8, 15);
    ExtBeforeNoDot("yml", -1, 3);
  }

  /** Extension cases: YAML in any letter case gets octet-stream; JSON, a
      dot that is only in a directory, and a bare word lose `Content-Type`. */
  lemma ContentTypeCases(h: Header)
    ensures HeaderContentType in Typed(h, "api.yaml") && Typed(h, "api.yaml")[HeaderContentType] == [ContentTypeOctetStream]
    ensures HeaderContentType in Typed(h, "v2/API.YML") && Typed(h, "v2/API.YML")[HeaderContentType] == [ContentTypeOctetStream]
    ensures HeaderContentType !in Typed(h, "api.json")
    ensures HeaderContentType !in Typed(h, "docs.yml/readme")
    ensures HeaderContentType !in Typed(h, "yml")
  {
    YamlCase();
    UpperYmlCase();
    JsonCase();
    NoExtensionCases();
  }
}
