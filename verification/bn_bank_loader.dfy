/**
 * Loading a BN Bank file: the list of files the application offers, the
 * character filter applied to the downloaded text, and the cache of parsed
 * files keyed by path. The network is a parameter: `fetch` gives the
 * response for a URL, and `tokenize` splits the text into rows with a
 * header line, as Papa Parse does.
 */
module BnBankLoader {
  import opened Results
  import opened Common
  import opened JsText
  import Sorting
  import DataManifest
  import BnBankCsv

  /**
   * The characters the class `[^\x20-\x7E\n\r\tæøåÆØÅ]` does not match:
   * printable ASCII, line feed, carriage return, tab and the six Norwegian letters.
   */
  predicate IsAllowed(c: char)
  {
    (' ' <= c <= '~') || c == '\n' || c == '\r' || c == '\t'
    || c == 'æ' || c == 'ø' || c == 'å' || c == 'Æ' || c == 'Ø' || c == 'Å'
  }

  /** `csvText.replace(/[^\x20-\x7E\n\r\tæøåÆØÅ]/g, '')`: every other character is deleted. */
  function Sanitize(text: string): (r: string)
    ensures |r| <= |text|
    ensures forall i :: 0 <= i < |r| ==> IsAllowed(r[i])
    ensures forall c :: c in r ==> c in text
  {
    Keep(text, IsAllowed)
  }

  /** Each character is kept or deleted on its own, so sanitising splits over concatenation. */
  lemma SanitizeConcat(a: string, b: string)
    ensures Sanitize(a + b) == Sanitize(a) + Sanitize(b)
  {
    KeepConcat(a, b, IsAllowed);
  }

  /** Text made only of allowed characters, and only such text, comes out unchanged. */
  lemma SanitizeFixedPoint(text: string)
    ensures Sanitize(text) == text <==> forall i :: 0 <= i < |text| ==> IsAllowed(text[i])
  {
    KeepFixedPoint(text, IsAllowed);
  }

  /** Sanitising twice is sanitising once. */
  lemma SanitizeIdempotent(text: string)
    ensures Sanitize(Sanitize(text)) == Sanitize(text)
  {
    KeepIdempotent(text, IsAllowed);
  }

  /** An allowed character survives wherever it stands; any other character is gone. */
  lemma SanitizeKeepsExactlyAllowed(text: string, c: char)
    ensures c in Sanitize(text) <==> c in text && IsAllowed(c)
  {
    KeepMembership(text, IsAllowed, c);
  }

  const May2025: DataManifest.DataFile :=
    DataManifest.DataFile(2025, 5, DataManifest.BnBank, "data/2025/5/bn_brukskonto.csv", "BN Bank - May 2025")
  const April2025: DataManifest.DataFile :=
    DataManifest.DataFile(2025, 4, DataManifest.BnBank, "data/2025/4/bn_brukskonto.csv", "BN Bank - April 2025")

  /** The comparator `a.year !== b.year ? b.year - a.year : b.month - a.month` as "may stay ahead". */
  function FileNewestFirst(): (DataManifest.DataFile, DataManifest.DataFile) -> bool
  {
    (a: DataManifest.DataFile, b: DataManifest.DataFile) => a.year > b.year || (a.year == b.year && a.month >= b.month)
  }

  /** `availableBnDataFiles`: the two files, sorted newest first. */
  const AvailableBnDataFiles: seq<DataManifest.DataFile> := Sorting.SortBy([May2025, April2025], FileNewestFirst())

  /** The list is May before April, newest first, and each file is filed as the manifest files it. */
  lemma AvailableBnDataFilesOrder()
    ensures AvailableBnDataFiles == [May2025, April2025]
    ensures forall i, j :: 0 <= i < j < |AvailableBnDataFiles| ==>
      AvailableBnDataFiles[i].year > AvailableBnDataFiles[j].year
      || (AvailableBnDataFiles[i].year == AvailableBnDataFiles[j].year
          && AvailableBnDataFiles[i].month > AvailableBnDataFiles[j].month)
    ensures forall f :: f in AvailableBnDataFiles ==>
      DataManifest.GetDataFile(DataManifest.Files, f.year, f.month, DataManifest.BnBank) == Some(f)
  {
    assert Sorting.SortBy([April2025], FileNewestFirst()) == [April2025];
    assert [May2025, April2025][1..] == [April2025];
  }

  /** What `fetch` answers: the status and, when it is OK, the body. */
  datatype Response = Response(ok: bool, status: int, statusText: string, body: string)

  /** Why a load fails: the server's answer, or the first row the schema rejects. */
  datatype LoadError =
    | FetchFailed(status: int, statusText: string)
    | Invalid(error: BnBankCsv.ValidationError)

  /** Parsed files by path, shared by every load. */
  type Cache = map<string, seq<Row>>

  /**
   * `loadBnBankDataFile`: a path already in the cache is answered from it
   * without fetching; otherwise the file at `/path` is fetched, sanitised,
   * tokenised and validated, and only a successful load is cached.
   */
  method LoadBnBankDataFile(
    cache: Cache, file: DataManifest.DataFile,
    fetch: string -> Response, tokenize: string -> seq<Row>, schema: Row -> Option<Row>)
    returns (r: Result<seq<Row>, LoadError>, updated: Cache)
    ensures file.path in cache ==> r == Ok(cache[file.path]) && updated == cache
    ensures file.path !in cache && !fetch("/" + file.path).ok ==>
      r == Err(FetchFailed(fetch("/" + file.path).status, fetch("/" + file.path).statusText))
    ensures file.path !in cache && fetch("/" + file.path).ok ==>
      var rows := tokenize(Sanitize(fetch("/" + file.path).body));
      (r.Ok? <==> forall i :: 0 <= i < |rows| ==> schema(rows[i]).Some?)
      && (r.Ok? ==> |r.value| == |rows| && forall i :: 0 <= i < |rows| ==> r.value[i] == schema(rows[i]).value)
      && (r.Err? ==>
        && r.error.Invalid?
        && r.error.error.index < |rows|
        && r.error.error.row == rows[r.error.error.index]
        && schema(rows[r.error.error.index]).None?
        && forall i :: 0 <= i < r.error.error.index ==> schema(rows[i]).Some?)
    ensures r.Ok? ==> updated == cache[file.path := r.value]
    ensures r.Err? ==> updated == cache
  {
    if file.path in cache {
      return Ok(cache[file.path]), cache;
    }
    var response := fetch("/" + file.path);
    if !response.ok {
      return Err(FetchFailed(response.status, response.statusText)), cache;
    }
    var cleaned := Sanitize(response.body);
    var parsed := BnBankCsv.ParseBnBankCsv(tokenize(cleaned), schema);
    match parsed {
      case Ok(transactions) =>
        r, updated := Ok(transactions), cache[file.path := transactions];
      case Err(e) =>
        r, updated := Err(Invalid(e)), cache;
    }
  }
}
