/**
 * The editing session behind the labeling form. The loaded records live in an
 * array that the handlers update in place; `index` is the record on screen.
 * Before a file is loaded both are absent, as the form's state starts empty.
 */
module Labeler {
  import opened Results
  import opened JsonValues
  import opened Spelling
  import opened Records
  import opened FileNames

  datatype SaveError = NothingToSave

  class Session {
    /** The letter-name table. */
    const alphabet: map<char, string>
    /** `str.upper()`. */
    const upper: string -> string
    var data: array?<Entry>
    var index: Option<nat>

    /** Every loaded record is well-formed. */
    ghost predicate WellFormedRecords()
      reads this, data
    {
      data != null ==> forall k | 0 <= k < data.Length :: WellFormed(data[k])
    }

    /** Every record is well-formed, and the open record is inside the list. */
    ghost predicate Valid()
      reads this, data
    {
      data != null ==>
        (forall k | 0 <= k < data.Length :: WellFormed(data[k]))
        && (index.Some? ==> index.value < data.Length)
    }

    constructor (alphabet: map<char, string>, upper: string -> string)
      ensures Valid()
      ensures this.alphabet == alphabet && this.upper == upper
      ensures data == null && index == None
    {
      this.alphabet := alphabet;
      this.upper := upper;
      data := null;
      index := None;
    }

    /**
     * `gr_load_json` once the file is parsed. On success the session holds the
     * parsed records with the first unlabeled one (or the first one) open and
     * auto-filled; on any error the session is left as it was.
     */
    method Load(parsed: Json) returns (r: Result<Form, LoadError>)
      requires Valid()
      modifies this
      ensures Valid()
      ensures r.Err? ==> data == old(data) && index == old(index)
      ensures !parsed.Arr? ==> r == Err(NotAList)
      ensures parsed.Arr? && !AllRecords(parsed.items) ==> r.Err? && FailsFirstWith(parsed.items, r.error)
      ensures parsed.Arr? && AllRecords(parsed.items) && |parsed.items| == 0 ==> r == Err(EmptyList)
      ensures parsed.Arr? && AllRecords(parsed.items) && |parsed.items| > 0 ==>
        var items := parsed.items;
        var i := FirstUnlabeled(items, 0);
        var fill := AutoFill(alphabet, upper, items[i].fields);
        (fill.Err? ==> r == Err(AutoFillFailed(fill.error)))
        && (fill.Ok? ==>
              fresh(data) && data[..] == Fields(items)[i := fill.value] && index == Some(i)
              && r == Ok(FormAt(fill.value, i, |items|)))
    {
      if !parsed.Arr? {
        return Err(NotAList);
      }
      var items := parsed.items;
      var scan := ScanItems(items);
      if scan.Err? {
        return Err(scan.error);
      }
      var i := scan.value;
      if |items| == 0 {
        return Err(EmptyList);
      }
      var filled := AutoFill(alphabet, upper, items[i].fields);
      if filled.Err? {
        return Err(AutoFillFailed(filled.error));
      }
      Open(Fields(items), i, filled.value);
      r := Ok(FormAt(filled.value, i, |items|));
    }

    /** Installs a fresh copy of the loaded records, with record `i` replaced by `filled`, and opens record `i`. */
    method Open(entries: seq<Entry>, i: nat, filled: Entry)
      requires forall k | 0 <= k < |entries| :: WellFormed(entries[k])
      requires i < |entries| && WellFormed(filled)
      modifies this
      ensures Valid()
      ensures fresh(data) && data[..] == entries[i := filled] && index == Some(i)
    {
      var records := new Entry[|entries|](k requires 0 <= k < |entries| => entries[k]);
      assert records[..] == entries;
      records[i] := filled;
      data := records;
      index := Some(i);
    }

    /**
     * `gr_navigate`: writes the form's fields back into the open record, then
     * moves by `direction`. A move out of the list is refused and echoes the form;
     * a move in range auto-fills the record it arrives at. If that auto-fill
     * fails the handler raises, yet the write-back has already happened.
     */
    method Navigate(direction: int, origin: string, transcription: string, kind: string)
      returns (r: Result<Form, TextError>)
      requires Valid()
      modifies this, data
      ensures Valid() && data == old(data)
      ensures old(data) == null || old(index).None? ==>
                index == old(index) && (data != null ==> data[..] == old(data[..]))
                && r == Ok(Form(Str(""), Str(""), Str(""), Position(0, 0)))
      ensures old(data) != null && old(index).Some? ==>
        var i := old(index).value;
        var n := i + direction;
        var saved := old(data[..])[i := Edited(Str(origin), transcription, kind)];
        data.Length == old(data.Length)
        && (forall k | 0 <= k < data.Length && k != i && k != n :: data[k] == old(data[k]))
        && if n < 0 || n >= data.Length then
             data[..] == saved && index == old(index)
             && r == Ok(Form(Str(origin), Str(transcription), Str(kind), Position(i + 1, data.Length)))
           else
             match AutoFill(alphabet, upper, saved[n])
             case Err(e) => data[..] == saved && index == old(index) && r == Err(e)
             case Ok(filled) =>
               data[..] == saved[n := filled] && index == Some(n as nat)
               && r == Ok(FormAt(filled, n, data.Length))
    {
      if data == null || index.None? {
        return Ok(Form(Str(""), Str(""), Str(""), Position(0, 0)));
      }
      var i := index.value;
      WriteBack(i, Edited(Str(origin), transcription, kind));
      ghost var saved := data[..];
      var n := i + direction;
      if n < 0 || n >= data.Length {
        return Ok(Form(Str(origin), Str(transcription), Str(kind), Position(i + 1, data.Length)));
      }
      assert data[n] == saved[n];
      r := Arrive(n);
    }

    /** Overwrites record `i` with the well-formed record `e`. */
    method WriteBack(i: nat, e: Entry)
      requires Valid() && data != null && i < data.Length && WellFormed(e)
      modifies data
      ensures Valid() && data[..] == old(data[..])[i := e]
      ensures forall k | 0 <= k < data.Length && k != i :: data[k] == old(data[k])
    {
      data[i] := e;
    }

    /**
     * The move of `gr_navigate` once the target is known to be in the list: auto-fills
     * record `n` and opens it, or, when the auto-fill fails, changes nothing.
     */
    method Arrive(n: nat) returns (r: Result<Form, TextError>)
      requires Valid() && data != null && n < data.Length
      modifies this, data
      ensures Valid() && data == old(data)
      ensures forall k | 0 <= k < data.Length && k != n :: data[k] == old(data[k])
      ensures match AutoFill(alphabet, upper, old(data[n]))
              case Err(e) => data[..] == old(data[..]) && index == old(index) && r == Err(e)
              case Ok(filled) =>
                data[..] == old(data[..])[n := filled] && index == Some(n)
                && r == Ok(FormAt(filled, n, data.Length))
    {
      var filled := AutoFill(alphabet, upper, data[n]);
      if filled.Err? {
        return Err(filled.error);
      }
      data[n] := filled.value;
      index := Some(n);
      r := Ok(FormAt(filled.value, n, data.Length));
    }

    /**
     * `gr_update_data`: when a record is open, replaces its transcription and type
     * by the form's values and keeps its origin; otherwise changes nothing.
     */
    method Update(transcription: string, kind: string)
      requires WellFormedRecords()
      modifies data
      ensures WellFormedRecords() && data == old(data) && index == old(index)
      ensures old(Valid()) ==> Valid()
      ensures data != null && index.Some? && index.value < data.Length ==>
                var i := index.value;
                data[..] == old(data[..])[i := Edited(old(data[i])["origin"], transcription, kind)]
      ensures data != null && !(index.Some? && index.value < data.Length) ==> data[..] == old(data[..])
    {
      if data != null && index.Some? && 0 <= index.value < data.Length {
        var i := index.value;
        data[i] := Edited(data[i]["origin"], transcription, kind);
      }
    }

    /**
     * The checks of `gr_save_json` before it writes: there must be records, and the
     * file is named after the loaded file's stem and the timestamp.
     */
    method Save(original: string, timestamp: string) returns (r: Result<string, SaveError>)
      ensures r.Err? <==> data == null || data.Length == 0
      ensures r.Ok? ==> r.value == SaveName(original, timestamp)
    {
      if data == null || data.Length == 0 {
        return Err(NothingToSave);
      }
      r := Ok(SaveName(original, timestamp));
    }
  }
}
