/**
 * The labeler's records and the pure steps the form handlers share: what a
 * well-formed record is, the per-element checks and the first-unlabeled search
 * of `gr_load_json`, and the auto-fill of an empty transcription.
 */
module Records {
  import opened Results
  import opened JsonValues
  import opened Spelling

  /** One record, a JSON object with (at least) the keys origin, transcription and type. */
  type Entry = map<string, Json>

  /** Why loading a parsed file fails; every case is re-raised as a load error. */
  datatype LoadError =
    | NotAList                            // the top-level value is not a list
    | ElementNotObject(at: nat)           // `item.get` on a non-dict element
    | TranscriptionWithoutLength(at: nat) // `len()` of a transcription that is a number, boolean or null
    | MissingKeys(at: nat)                // an element lacks origin, transcription or type
    | EmptyList                           // `data[0]` on an empty list
    | AutoFillFailed(reason: TextError)   // spelling the selected record's origin failed

  /** The displayed counter "current/total". */
  datatype Position = Position(current: nat, total: nat)

  /** What a handler puts back into the form: the record's three fields and the counter. */
  datatype Form = Form(origin: Json, transcription: Json, kind: Json, position: Position)

  predicate HasKeys(e: Entry) {
    "origin" in e && "transcription" in e && "type" in e
  }

  /** A record every handler can work on: all three keys, and a transcription `len()` accepts. */
  predicate WellFormed(e: Entry) {
    HasKeys(e) && PyLen(e["transcription"]).Some?
  }

  /** The dict a handler writes back from the form's fields. */
  function Edited(origin: Json, transcription: string, kind: string): (e: Entry)
    ensures WellFormed(e) && e.Keys == {"origin", "transcription", "type"}
    ensures e["origin"] == origin && e["transcription"] == Str(transcription) && e["type"] == Str(kind)
  {
    map["origin" := origin, "transcription" := Str(transcription), "type" := Str(kind)]
  }

  /** The form showing record `e` at position `n` of `total`. */
  function FormAt(e: Entry, n: nat, total: nat): Form
    requires WellFormed(e)
  {
    Form(e["origin"], e["transcription"], e["type"], Position(n + 1, total))
  }

  /**
   * The transcription test of the load loop: `len(item.get("transcription", "")) == 0`.
   * A missing key counts as empty.
   */
  predicate Unlabeled(item: Json) {
    item.Obj? && PyLen(Get(item.fields, "transcription", Str(""))) == Some(0)
  }

  /** The error the load loop raises at element `at`, in the order the loop meets the checks. */
  function ItemError(item: Json, at: nat): (err: Option<LoadError>)
    ensures err.None? <==> item.Obj? && WellFormed(item.fields)
    ensures err.Some? ==> err.value in {ElementNotObject(at), TranscriptionWithoutLength(at), MissingKeys(at)}
  {
    if !item.Obj? then Some(ElementNotObject(at))
    else if PyLen(Get(item.fields, "transcription", Str(""))).None? then Some(TranscriptionWithoutLength(at))
    else if !HasKeys(item.fields) then Some(MissingKeys(at))
    else None
  }

  /** Every element is a dict holding a well-formed record, i.e. passes the load checks. */
  predicate AllRecords(items: seq<Json>) {
    forall k | 0 <= k < |items| :: items[k].Obj? && WellFormed(items[k].fields)
  }

  /** `err` is what the load loop raises: the error of the first element that fails a check. */
  predicate FailsFirstWith(items: seq<Json>, err: LoadError) {
    exists k | 0 <= k < |items| ::
      ItemError(items[k], k) == Some(err) && forall j | 0 <= j < k :: ItemError(items[j], j).None?
  }

  /** The records held by elements that are all dicts. */
  function Fields(items: seq<Json>): (es: seq<Entry>)
    requires forall k | 0 <= k < |items| :: items[k].Obj?
    ensures |es| == |items| && forall k | 0 <= k < |items| :: es[k] == items[k].fields
  {
    seq(|items|, k requires 0 <= k < |items| => items[k].fields)
  }

  /** The index the load opens, searching from `from`: the first unlabeled element, or 0 if there is none. */
  function FirstUnlabeled(items: seq<Json>, from: nat): (i: nat)
    requires from <= |items|
    ensures from < |items| ==> i < |items|
    ensures (exists k | from <= k < |items| :: Unlabeled(items[k])) ==>
              from <= i < |items| && Unlabeled(items[i]) && forall j | from <= j < i :: !Unlabeled(items[j])
    ensures (forall k | from <= k < |items| :: !Unlabeled(items[k])) ==> i == 0
    decreases |items| - from
  {
    if from == |items| then 0
    else if Unlabeled(items[from]) then from
    else FirstUnlabeled(items, from + 1)
  }

  /**
   * The loop of `gr_load_json`: checks every element in order and remembers the
   * first unlabeled one. It fails at the first element that fails a check.
   */
  method ScanItems(items: seq<Json>) returns (r: Result<nat, LoadError>)
    ensures r.Ok? <==> AllRecords(items)
    ensures r.Ok? ==> r.value == FirstUnlabeled(items, 0)
    ensures r.Err? ==> FailsFirstWith(items, r.error)
  {
    var first := 0;
    var changed := false;
    var idx := 0;
    while idx < |items|
      invariant 0 <= idx <= |items|
      invariant forall k | 0 <= k < idx :: ItemError(items[k], k).None?
      invariant !changed ==> first == 0 && forall k | 0 <= k < idx :: !Unlabeled(items[k])
      invariant changed ==> first < idx && first == FirstUnlabeled(items, 0)
    {
      var item := items[idx];
      if !item.Obj? {
        return Err(ElementNotObject(idx));
      }
      var n := PyLen(Get(item.fields, "transcription", Str("")));
      if n.None? {
        return Err(TranscriptionWithoutLength(idx));
      }
      if n.value == 0 && !changed {
        changed := true;
        first := idx;
      }
      if !HasKeys(item.fields) {
        return Err(MissingKeys(idx));
      }
      idx := idx + 1;
    }
    r := Ok(first);
  }

  /**
   * The auto-fill done on the record a handler opens: an empty transcription is
   * replaced by the spelling of the origin; every other key, and a non-empty
   * transcription, is kept.
   */
  function AutoFill(alphabet: map<char, string>, upper: string -> string, e: Entry): (r: Result<Entry, TextError>)
    requires WellFormed(e)
    ensures PyLen(e["transcription"]) != Some(0) ==> r == Ok(e)
    ensures PyLen(e["transcription"]) == Some(0) ==>
              (r.Ok? <==> e["origin"].Str? && !IsBlank(e["origin"].s))
    ensures PyLen(e["transcription"]) == Some(0) && !e["origin"].Str? ==> r == Err(NotText)
    ensures r.Ok? ==> WellFormed(r.value) && r.value.Keys == e.Keys
                      && forall key | key in e && key != "transcription" :: r.value[key] == e[key]
    ensures r.Ok? && PyLen(e["transcription"]) == Some(0) ==>
              r.value["transcription"] == Str(Transcribe(alphabet, upper, e["origin"].s).value)
  {
    if PyLen(e["transcription"]) != Some(0) then Ok(e)
    else if !e["origin"].Str? then Err(NotText)
    else match Transcribe(alphabet, upper, e["origin"].s)
      case Ok(t) => Ok(e["transcription" := Str(t)])
      case Err(err) => Err(err)
  }

  /** Filling a record that was just filled changes nothing. */
  lemma {:induction false} AutoFillIdempotent(alphabet: map<char, string>, upper: string -> string, e: Entry)
    requires WellFormed(e)
    requires AutoFill(alphabet, upper, e).Ok?
    ensures AutoFill(alphabet, upper, AutoFill(alphabet, upper, e).value) == AutoFill(alphabet, upper, e)
  {
    var f := AutoFill(alphabet, upper, e).value;
    if PyLen(e["transcription"]) == Some(0) {
      var t := Transcribe(alphabet, upper, e["origin"].s).value;
      assert f == e["transcription" := Str(t)];
      assert f["origin"] == e["origin"];
      if |t| == 0 {
        assert f["transcription" := Str(t)] == f;
      }
    }
  }
}
