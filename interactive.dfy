/**
 * `InteractiveManager`: the two prompts that read the user's choices. The
 * lines the user types are a sequence, running out of it being the
 * `EOFError` that `input()` raises; Python's `int()` is the oracle `toInt`,
 * `None` standing for its `ValueError`. The listings the prompts print are
 * left out.
 */
module Interactive {
  import opened Wrappers
  import opened Text

  // ---------------------------------------------------------------- ranks

  /** Each entry is at least as high as every later one. */
  predicate Descending(r: seq<int>) {
    forall i, j :: 0 <= i < j < |r| ==> r[i] >= r[j]
  }

  /** `x` placed in a descending list ahead of the first entry not above it. */
  function Insert(x: int, r: seq<int>): (t: seq<int>)
    ensures |t| == |r| + 1
  {
    if r == [] then [x] else if x >= r[0] then [x] + r else [r[0]] + Insert(x, r[1..])
  }

  /** `sorted(ks, reverse=True)`. */
  function SortDesc(ks: seq<int>): (r: seq<int>)
    ensures |r| == |ks|
  {
    if ks == [] then [] else Insert(ks[0], SortDesc(ks[1..]))
  }

  lemma {:induction false} InsertElements(x: int, r: seq<int>)
    ensures multiset(Insert(x, r)) == multiset(r) + multiset{x}
  {
    if r != [] && x < r[0] {
      InsertElements(x, r[1..]);
      assert r == [r[0]] + r[1..];
    }
  }

  lemma {:induction false} InsertOrdered(x: int, r: seq<int>)
    requires Descending(r)
    ensures Descending(Insert(x, r))
  {
    if r != [] && x < r[0] {
      InsertOrdered(x, r[1..]);
      InsertElements(x, r[1..]);
      var t := Insert(x, r[1..]);
      forall j | 0 <= j < |t| ensures r[0] >= t[j] {
        assert t[j] in multiset(t);
        if t[j] != x { assert t[j] in multiset(r[1..]); }
      }
    }
  }

  /** The sorted list is descending and a permutation of its input. */
  lemma {:induction false} SortDescSpec(ks: seq<int>)
    ensures Descending(SortDesc(ks)) && multiset(SortDesc(ks)) == multiset(ks)
  {
    if ks != [] {
      SortDescSpec(ks[1..]);
      InsertOrdered(ks[0], SortDesc(ks[1..]));
      InsertElements(ks[0], SortDesc(ks[1..]));
      assert ks == [ks[0]] + ks[1..];
    }
  }

  /** The ranks of `qualities.items()`, taken in the dict's order. */
  function Ranks(items: seq<(int, string)>): (r: seq<int>)
    ensures |r| == |items|
  {
    seq(|items|, i requires 0 <= i < |items| => items[i].0)
  }

  /** The ranks as the prompt lists them: `sorted(qualities.items(), key=lambda x: x[0], reverse=True)`. */
  function Listing(items: seq<(int, string)>): (r: seq<int>)
    ensures |r| == |items|
  {
    SortDesc(Ranks(items))
  }

  // --------------------------------------------------------------- quality

  /**
   * What one typed line does in the loop of `select_quality`, with `ranks`
   * the listing: a blank line takes the default, the first rank; a number
   * `n` from 1 to `|ranks|` takes the `n`-th rank; anything else, a line
   * `int()` rejects or a number out of range, takes nothing and the prompt
   * is repeated.
   */
  function QualityAnswer(ranks: seq<int>, line: string, toInt: string -> Option<int>): Option<int>
    requires |ranks| >= 1
  {
    var choice := Strip(line);
    if choice == "" then Some(ranks[0])
    else match toInt(choice)
      case None => None
      case Some(n) => if 1 <= n <= |ranks| then Some(ranks[n - 1]) else None
  }

  /**
   * An accepted answer is one of the catalogue's ranks. A blank line gives
   * the highest rank. Any other line is accepted exactly when `int()` reads
   * it as a number `n` from 1 to the number of ranks, and then gives the
   * `n`-th rank of the descending listing: no higher than any of the `n - 1`
   * listed before it and no lower than any listed after it.
   */
  lemma QualityAnswerSpec(items: seq<(int, string)>, line: string, toInt: string -> Option<int>)
    requires items != []
    ensures var a := QualityAnswer(Listing(items), line, toInt);
            a.Some? ==> exists i :: 0 <= i < |items| && items[i].0 == a.value
    ensures Strip(line) == "" ==>
              var a := QualityAnswer(Listing(items), line, toInt);
              a.Some? && forall i :: 0 <= i < |items| ==> items[i].0 <= a.value
    ensures Strip(line) != "" ==>
              (QualityAnswer(Listing(items), line, toInt).Some? <==>
                 toInt(Strip(line)).Some? && 1 <= toInt(Strip(line)).value <= |items|)
    ensures var ranks, a := Listing(items), QualityAnswer(Listing(items), line, toInt);
            Strip(line) != "" && a.Some? ==>
              var n := toInt(Strip(line)).value;
              && a == Some(ranks[n - 1])
              && (forall i :: 0 <= i < n - 1 ==> ranks[i] >= a.value)
              && (forall i :: n - 1 < i < |ranks| ==> a.value >= ranks[i])
  {
    var ks, ranks := Ranks(items), Listing(items);
    SortDescSpec(ks);
    var a := QualityAnswer(ranks, line, toInt);
    if a.Some? {
      var j :| 0 <= j < |ranks| && ranks[j] == a.value;
      assert a.value in multiset(ks) by { assert ranks[j] in multiset(ranks); }
      var i :| 0 <= i < |ks| && ks[i] == a.value;
      assert items[i].0 == a.value;
    }
    forall i | 0 <= i < |items| ensures items[i].0 <= ranks[0] {
      assert ks[i] in multiset(ks);
      var j :| 0 <= j < |ranks| && ranks[j] == ks[i];
    }
  }

  /**
   * Typing the position of a rank, as the f-string `{idx}` of the listing
   * prints it, selects that rank, provided `int()` reads back the numbers it
   * renders.
   */
  lemma QualityByPosition(ranks: seq<int>, n: int, toInt: string -> Option<int>)
    requires 1 <= n <= |ranks|
    requires toInt(IntToString(n)) == Some(n)
    ensures QualityAnswer(ranks, IntToString(n), toInt) == Some(ranks[n - 1])
  {
    var s := IntToString(n);
    assert !IsSpace(s[0]) && !IsSpace(s[|s| - 1]);
    StripTrimmed(s);
  }

  /**
   * `select_quality`: keep reading lines until one is accepted. `r` is the
   * rank chosen by the first accepted line, which is line `read`; every
   * earlier line was rejected. `items` is `qualities.items()`. `r` is `None`
   * when the catalogue is empty (`sorted_qn[0]` raises `IndexError` before
   * any line is read) or when the input runs out with every line rejected
   * (`input()` raises `EOFError`).
   */
  method SelectQuality(items: seq<(int, string)>, lines: seq<string>, toInt: string -> Option<int>)
    returns (r: Option<int>, ghost read: nat)
    ensures read <= |lines|
    ensures items == [] ==> r == None && read == 0
    ensures items != [] && r.Some? ==>
              && 1 <= read
              && QualityAnswer(Listing(items), lines[read - 1], toInt) == r
              && forall i :: 0 <= i < read - 1 ==> QualityAnswer(Listing(items), lines[i], toInt).None?
    ensures items != [] && r.None? ==>
              read == |lines| && forall i :: 0 <= i < |lines| ==> QualityAnswer(Listing(items), lines[i], toInt).None?
    ensures r.Some? ==> exists i :: 0 <= i < |items| && items[i].0 == r.value
  {
    var ranks := Listing(items);
    if ranks == [] {
      return None, 0;   // sorted_qn[0] raises IndexError
    }
    r, read := Prompt(line => QualityAnswer(ranks, line, toInt), lines);
    if r.Some? {
      QualityAnswerSpec(items, lines[read - 1], toInt);
    }
  }

  // --------------------------------------------------------------- folders

  /** One entry of the folder list; the prompt returns the `id`s of the chosen ones. */
  datatype Folder = Folder(id: int, title: string, mediaCount: int)

  /**
   * `[convert(s) for s in pieces]`, or `None` when `convert` rejects a piece;
   * the prompt converts with `int(s.strip())`.
   */
  function ParseNumbers(pieces: seq<string>, convert: string -> Option<int>): (r: Option<seq<int>>)
    ensures r.Some? ==> |r.value| == |pieces|
  {
    if pieces == [] then Some([])
    else match (convert(pieces[0]), ParseNumbers(pieces[1..], convert))
      case (Some(n), Some(ns)) => Some([n] + ns)
      case _ => None
  }

  /** The list is built exactly when every piece converts, each piece giving its own number. */
  lemma {:induction false} ParseNumbersSpec(pieces: seq<string>, convert: string -> Option<int>)
    ensures ParseNumbers(pieces, convert).Some? <==> forall k :: 0 <= k < |pieces| ==> convert(pieces[k]).Some?
    ensures ParseNumbers(pieces, convert).Some? ==>
              forall k :: 0 <= k < |pieces| ==> convert(pieces[k]) == Some(ParseNumbers(pieces, convert).value[k])
  {
    if pieces != [] {
      ParseNumbersSpec(pieces[1..], convert);
      assert forall k :: 1 <= k < |pieces| ==> pieces[k] == pieces[1..][k - 1];
    }
  }

  /** Every number is a position in a list of `count` entries. */
  predicate InRange(nums: seq<int>, count: int) {
    forall k :: 0 <= k < |nums| ==> 1 <= nums[k] <= count
  }

  /** `[folders[num-1]["id"] for num in nums]`. */
  function Ids(folders: seq<Folder>, nums: seq<int>): (r: seq<int>)
    requires InRange(nums, |folders|)
    ensures |r| == |nums|
  {
    seq(|nums|, k requires 0 <= k < |nums| => folders[nums[k] - 1].id)
  }

  /** `selection.lower() == "q"`: only `q` and `Q` lower-case to `q`. */
  predicate IsQuit(selection: string) {
    selection == "q" || selection == "Q"
  }

  /**
   * What one typed line does in the loop of `select_folders`: `q` (either
   * case) gives the empty list; a comma-separated list of numbers, each
   * piece stripped, all positions in the folder list, gives those folders'
   * ids in the order typed; anything else takes nothing and the prompt is
   * repeated.
   */
  function FolderAnswer(folders: seq<Folder>, line: string, toInt: string -> Option<int>): Option<seq<int>> {
    var selection := Strip(line);
    if IsQuit(selection) then Some([]) else Chosen(folders, Split(selection, ','), toInt)
  }

  /** The ids at the typed positions, or `None` when a piece is not a number or not a position. */
  function Chosen(folders: seq<Folder>, pieces: seq<string>, toInt: string -> Option<int>): Option<seq<int>> {
    match ParseNumbers(pieces, s => toInt(Strip(s)))
    case None => None
    case Some(nums) => if InRange(nums, |folders|) then Some(Ids(folders, nums)) else None
  }

  /** `id` is the id of one of the listed folders. */
  predicate ListedId(folders: seq<Folder>, id: int) {
    exists j :: 0 <= j < |folders| && folders[j].id == id
  }

  /**
   * An accepted answer is empty exactly when the line was `q`; otherwise it
   * has one id per comma-separated piece, each the id of a listed folder.
   */
  lemma FolderAnswerSpec(folders: seq<Folder>, line: string, toInt: string -> Option<int>)
    ensures var a := FolderAnswer(folders, line, toInt);
            a.Some? ==> (a.value == [] <==> IsQuit(Strip(line)))
    ensures var a := FolderAnswer(folders, line, toInt);
            a.Some? && !IsQuit(Strip(line)) ==> |a.value| == |Split(Strip(line), ',')|
    ensures var a := FolderAnswer(folders, line, toInt);
            a.Some? ==> forall k :: 0 <= k < |a.value| ==> ListedId(folders, a.value[k])
  {
    var a := FolderAnswer(folders, line, toInt);
    if a.Some? && !IsQuit(Strip(line)) {
      var nums := ParseNumbers(Split(Strip(line), ','), s => toInt(Strip(s))).value;
      assert InRange(nums, |folders|) && a.value == Ids(folders, nums);
      forall k | 0 <= k < |a.value| ensures ListedId(folders, a.value[k]) {
        var j := nums[k] - 1;
        assert 0 <= j < |folders| && folders[j].id == a.value[k];
      }
    }
  }

  /**
   * A line other than `q` is accepted exactly when every stripped
   * comma-separated piece is read by `int()` as a position from 1 to the
   * number of folders; the `k`-th id is then that of the folder at the
   * `k`-th typed position.
   */
  lemma FolderAnswerPositions(folders: seq<Folder>, line: string, toInt: string -> Option<int>)
    requires !IsQuit(Strip(line))
    ensures FolderAnswer(folders, line, toInt).Some? <==> Positions(Split(Strip(line), ','), toInt, |folders|)
    ensures var pieces, a := Split(Strip(line), ','), FolderAnswer(folders, line, toInt);
            a.Some? ==>
              && |a.value| == |pieces|
              && forall k :: 0 <= k < |pieces| ==> a.value[k] == folders[toInt(Strip(pieces[k])).value - 1].id
  {
    var pieces := Split(Strip(line), ',');
    PositionsSpec(|folders|, pieces, toInt);
    var p := ParseNumbers(pieces, s => toInt(Strip(s)));
    assert FolderAnswer(folders, line, toInt).Some? <==> p.Some? && InRange(p.value, |folders|);
  }

  /** Every stripped piece is read by `int()` as a position in a list of `count` entries. */
  predicate Positions(pieces: seq<string>, toInt: string -> Option<int>, count: int) {
    forall k :: 0 <= k < |pieces| ==> toInt(Strip(pieces[k])).Some? && 1 <= toInt(Strip(pieces[k])).value <= count
  }

  /**
   * The stripped pieces give positions in a list of `count` entries exactly
   * when each is read by `int()` as a number from 1 to `count`, the `k`-th
   * position being the number of the `k`-th piece.
   */
  lemma PositionsSpec(count: int, pieces: seq<string>, toInt: string -> Option<int>)
    ensures var p := ParseNumbers(pieces, s => toInt(Strip(s)));
            (p.Some? && InRange(p.value, count)) <==> Positions(pieces, toInt, count)
    ensures var p := ParseNumbers(pieces, s => toInt(Strip(s)));
            p.Some? ==> forall k :: 0 <= k < |pieces| ==> toInt(Strip(pieces[k])) == Some(p.value[k])
  {
    ParseNumbersSpec(pieces, s => toInt(Strip(s)));
  }

  /** The decimal rendering of each number. */
  function Render(nums: seq<int>): (r: seq<string>)
    ensures |r| == |nums|
  {
    seq(|nums|, k requires 0 <= k < |nums| => IntToString(nums[k]))
  }

  /**
   * Typing the listed positions of some folders, separated by commas, selects
   * exactly those folders in that order, provided `int()` reads back the
   * numbers it renders.
   */
  lemma FolderByPositions(folders: seq<Folder>, nums: seq<int>, toInt: string -> Option<int>)
    requires |nums| >= 1 && InRange(nums, |folders|)
    requires forall k :: 0 <= k < |nums| ==> toInt(IntToString(nums[k])) == Some(nums[k])
    ensures FolderAnswer(folders, Join(Render(nums), ','), toInt) == Some(Ids(folders, nums))
  {
    var parts := Render(nums);
    var line := Join(parts, ',');
    forall k | 0 <= k < |parts| ensures ',' !in parts[k] {
      assert parts[k] == IntToString(nums[k]);
    }
    JoinEnds(parts, ',');
    StripTrimmed(line);
    JoinSplit(parts, ',');
    RenderedNumbers(nums, toInt);
  }

  /** The renderings of some numbers parse back to those numbers. */
  lemma RenderedNumbers(nums: seq<int>, toInt: string -> Option<int>)
    requires forall k :: 0 <= k < |nums| ==> toInt(IntToString(nums[k])) == Some(nums[k])
    ensures ParseNumbers(Render(nums), s => toInt(Strip(s))) == Some(nums)
  {
    var parts := Render(nums);
    forall k | 0 <= k < |parts| ensures toInt(Strip(parts[k])) == Some(nums[k]) {
      var s := parts[k];
      assert s == IntToString(nums[k]);
      assert !IsSpace(s[0]) && !IsSpace(s[|s| - 1]);
      StripTrimmed(s);
    }
    ParseNumbersSpec(parts, s => toInt(Strip(s)));
    var got := ParseNumbers(parts, s => toInt(Strip(s))).value;
    assert got == nums;
  }

  /**
   * A comma-joined list of decimal numbers starts with a digit or `-` and
   * ends with a digit, so it is neither blank at either end nor `q`.
   */
  lemma {:induction false} JoinEnds(parts: seq<string>, sep: char)
    requires |parts| >= 1
    requires forall k :: 0 <= k < |parts| ==> |parts[k]| >= 1 && (IsDigit(parts[k][0]) || parts[k][0] == '-')
    requires forall k :: 0 <= k < |parts| ==> IsDigit(parts[k][|parts[k]| - 1])
    ensures var s := Join(parts, sep); |s| >= 1 && (IsDigit(s[0]) || s[0] == '-') && IsDigit(s[|s| - 1])
    decreases |parts|
  {
    if |parts| > 1 {
      JoinEnds(parts[1..], sep);
      var rest := Join(parts[1..], sep);
      assert Join(parts, sep) == parts[0] + [sep] + rest;
    }
  }

  /**
   * `select_folders`: keep reading lines until one is accepted. `r` is the
   * answer of the first accepted line, which is line `read`; every earlier
   * line was rejected. `r` is `None` when the input runs out with every line
   * rejected (`input()` raises `EOFError`).
   */
  method SelectFolders(folders: seq<Folder>, lines: seq<string>, toInt: string -> Option<int>)
    returns (r: Option<seq<int>>, ghost read: nat)
    ensures read <= |lines|
    ensures r.Some? ==>
              1 <= read && FolderAnswer(folders, lines[read - 1], toInt) == r && AllRejected(folders, lines, read - 1, toInt)
    ensures r.None? ==> read == |lines| && AllRejected(folders, lines, |lines|, toInt)
  {
    r, read := Prompt(line => FolderAnswer(folders, line, toInt), lines);
  }

  /** Each of the first `n` lines is rejected by the folder prompt. */
  predicate AllRejected(folders: seq<Folder>, lines: seq<string>, n: int, toInt: string -> Option<int>) {
    forall i :: 0 <= i < n && i < |lines| ==> FolderAnswer(folders, lines[i], toInt).None?
  }

  // ---------------------------------------------------------------- prompt

  /**
   * The `while True:` loop both prompts run: read the next line, which
   * `answer` accepts or rejects, and stop at the first accepted one. `r` is
   * its answer and `read` the number of lines consumed; `r` is `None`, the
   * `EOFError` of `input()`, when every line was rejected.
   */
  method Prompt<T>(answer: string -> Option<T>, lines: seq<string>) returns (r: Option<T>, ghost read: nat)
    ensures read <= |lines|
    ensures r.Some? ==>
              1 <= read && answer(lines[read - 1]) == r && forall i :: 0 <= i < read - 1 ==> answer(lines[i]).None?
    ensures r.None? ==> read == |lines| && forall i :: 0 <= i < |lines| ==> answer(lines[i]).None?
  {
    r, read := None, 0;
    var n := 0;
    while n < |lines|
      invariant n <= |lines| && read == n
      invariant forall i :: 0 <= i < n ==> answer(lines[i]).None?
    {
      var a := answer(lines[n]);
      n, read := n + 1, n + 1;
      if a.Some? {
        return a, read;
      }
    }
  }
}
