/**
 * The download history: the JSON array kept in `history_file`, and the set
 * of `(bvid, cid, quality)` keys `_load_download_history` derives from it.
 * The file is abstracted to what `json.load` makes of it.
 */
module Ledger {
  import opened Wrappers

  /** The dedup key `(bvid, cid, quality)`. */
  datatype Key = Key(bvid: string, cid: int, quality: int)

  /**
   * One element of the JSON array. A field is `None` when the element has
   * no such key; an element that is not an object has no keys at all.
   */
  datatype Record = Record(bvid: Option<string>, cid: Option<int>, quality: Option<int>,
                           title: Option<string>, timestamp: Option<int>)

  /**
   * The history file as the downloader finds it. `Corrupt` is a file whose
   * read or `json.load` raises, or whose JSON is not an array: a dict,
   * string, number or null either raises when it is iterated as records or
   * has no `append`, so it behaves as a decoding error does.
   */
  datatype HistoryFile =
    | Missing
    | ZeroSize
    | Corrupt
    | Records(records: seq<Record>)

  /** `(item["bvid"], item["cid"], item["quality"])`, or `None` where that raises `KeyError`. */
  function KeyOf(r: Record): Option<Key> {
    if r.bvid.Some? && r.cid.Some? && r.quality.Some? then
      Some(Key(r.bvid.value, r.cid.value, r.quality.value))
    else None
  }

  /** Every record has all three key fields. */
  predicate Complete(rs: seq<Record>) {
    forall i :: 0 <= i < |rs| ==> KeyOf(rs[i]).Some?
  }

  /**
   * `_load_download_history`: the set of keys of the records. A missing file,
   * a zero-size file, a corrupt file, and a record without one of the key
   * fields all give the empty set, since the source catches every exception
   * and returns `set()`.
   */
  function LoadHistory(f: HistoryFile): (s: set<Key>)
    ensures !f.Records? ==> s == {}
    ensures f.Records? && !Complete(f.records) ==> s == {}
    ensures f.Records? && Complete(f.records) ==>
              forall k :: k in s <==> exists i :: 0 <= i < |f.records| && KeyOf(f.records[i]) == Some(k)
  {
    if f.Records? && Complete(f.records) then
      set i | 0 <= i < |f.records| :: KeyOf(f.records[i]).value
    else {}
  }

  /** The record `_save_download_entry` appends (lines 95-101). */
  function NewRecord(bvid: string, cid: int, quality: int, title: string, timestamp: int): (r: Record)
    ensures KeyOf(r) == Some(Key(bvid, cid, quality))
  {
    Record(Some(bvid), Some(cid), Some(quality), Some(title), Some(timestamp))
  }

  /**
   * How the rewrite of lines 103-104 ends. `OpenFailed`: `open(..., "w")`
   * raises and the file is untouched. `Truncated`: the open empties the file
   * and `json.dump` raises before writing anything. `PartWritten`:
   * `json.dump` raises part-way (a full disk, or a title that cannot be
   * encoded as UTF-8), leaving an incomplete JSON array.
   */
  datatype WriteResult = Written | OpenFailed | Truncated | PartWritten

  /**
   * The save reaches the rewrite: a missing file counts as the empty array,
   * an array gets the new record appended. A zero-size or corrupt file makes
   * line 93 or line 95 raise first.
   */
  predicate Rewrites(f: HistoryFile) {
    f.Missing? || f.Records?
  }

  /**
   * The history file after `_save_download_entry` appends `rec`, where `wr`
   * says how rewriting the file ended. A successful rewrite extends an
   * existing array by exactly `rec`, keeping every earlier record, and turns
   * a missing file into the one-record array. A failed open, or a zero-size
   * or corrupt file, leaves the file as it was. A dump that fails after the
   * truncating open leaves an empty file, or an incomplete one that
   * `json.load` rejects.
   */
  function Saved(f: HistoryFile, rec: Record, wr: WriteResult): (r: HistoryFile)
    ensures f.Records? && wr == Written ==>
              r.Records? && |r.records| == |f.records| + 1
              && r.records[..|f.records|] == f.records && r.records[|f.records|] == rec
    ensures f.Missing? && wr == Written ==> r == Records([rec])
    ensures wr == OpenFailed || !Rewrites(f) ==> r == f
    ensures Rewrites(f) && wr == Truncated ==> r == ZeroSize
    ensures Rewrites(f) && wr == PartWritten ==> r == Corrupt
  {
    if !Rewrites(f) then f
    else match wr
      case Written => if f.Records? then Records(f.records + [rec]) else Records([rec])
      case OpenFailed => f
      case Truncated => ZeroSize
      case PartWritten => Corrupt
  }

  /** A file whose records all carry their keys, or no file at all: saving extends what loading sees. */
  predicate Extensible(f: HistoryFile) {
    f.Missing? || (f.Records? && Complete(f.records))
  }

  /**
   * Loading after a save: the saved key is added exactly when the file was
   * extensible and the rewrite succeeded; a rewrite that fails after the
   * truncating open loses every key; otherwise the loaded set is the same
   * as before.
   */
  lemma LoadAfterSave(f: HistoryFile, rec: Record, wr: WriteResult)
    requires KeyOf(rec).Some?
    ensures LoadHistory(Saved(f, rec, wr))
            == if wr == Written && Extensible(f) then LoadHistory(f) + {KeyOf(rec).value}
               else if Rewrites(f) && (wr == Truncated || wr == PartWritten) then {}
               else LoadHistory(f)
  {
    var g := Saved(f, rec, wr);
    if wr == Written && f.Records? {
      var rs := f.records + [rec];
      assert g.records == rs;
      if Complete(f.records) {
        assert Complete(rs);
        forall k ensures k in LoadHistory(g) <==> k in LoadHistory(f) + {KeyOf(rec).value} {
          if k in LoadHistory(f) {
            var i :| 0 <= i < |f.records| && KeyOf(f.records[i]) == Some(k);
            assert rs[i] == f.records[i];
          }
          if k in LoadHistory(g) {
            var i :| 0 <= i < |rs| && KeyOf(rs[i]) == Some(k);
            if i < |f.records| { assert rs[i] == f.records[i]; }
          }
          assert rs[|f.records|] == rec;
        }
      } else {
        var i :| 0 <= i < |f.records| && KeyOf(f.records[i]).None?;
        assert rs[i] == f.records[i];
      }
    } else if wr == Written && f.Missing? {
      assert g.records[0] == rec;
    }
  }

  /** A record whose key is already present adds nothing: duplicates collapse. */
  lemma DuplicateCollapses(rs: seq<Record>, rec: Record, i: nat)
    requires Complete(rs) && i < |rs| && KeyOf(rec) == KeyOf(rs[i])
    ensures LoadHistory(Records(rs + [rec])) == LoadHistory(Records(rs))
  {
    LoadAfterSave(Records(rs), rec, Written);
    assert KeyOf(rec).value in LoadHistory(Records(rs));
  }

  /** The loaded set never has more keys than the file has records. */
  lemma {:induction false} LoadHistorySize(rs: seq<Record>)
    ensures |LoadHistory(Records(rs))| <= |rs|
  {
    if rs != [] && Complete(rs) {
      var init := rs[..|rs| - 1];
      assert rs == init + [rs[|rs| - 1]];
      assert Complete(init) by {
        assert forall i :: 0 <= i < |init| ==> init[i] == rs[i];
      }
      LoadHistorySize(init);
      LoadAfterSave(Records(init), rs[|rs| - 1], Written);
    }
  }
}
