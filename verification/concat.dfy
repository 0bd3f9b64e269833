/** The concatenation scripts: the list file handed to the concat demuxer,
    and the integer tail of the scale-and-pad geometry. */
module Concat {
  import opened Basics
  import opened Selection

  // ---------------------------------------------------------------------------
  // The list file
  // ---------------------------------------------------------------------------

  /** What replaces a `'` inside a single-quoted token: close the quote, an
      escaped quote, reopen the quote. */
  const QuoteEscape: string := "'\\''"

  /** The number of single quotes in `s`. */
  function Quotes(s: string): nat
  {
    if |s| == 0 then 0 else (if s[0] == '\'' then 1 else 0) + Quotes(s[1..])
  }

  /** `path.replace("'", "'\\''")`. */
  function Escape(p: Path): (e: string)
    ensures |e| == |p| + 3 * Quotes(p)
    ensures Quotes(p) == 0 ==> e == p
  {
    if |p| == 0 then ""
    else (if p[0] == '\'' then QuoteEscape else [p[0]]) + Escape(p[1..])
  }

  /** One line of the list: `file '<escaped path>'` and a newline. */
  function ListLine(p: Path): string
  {
    "file '" + Escape(p) + "'\n"
  }

  /** Reads the rest of a `file` directive the way a shell-style tokenizer
      does: inside single quotes every character but `'` is literal, outside
      them `\` makes the next character literal and an unquoted newline ends
      the line. Gives the path and the text after the line. */
  function ReadPath(s: string, quoted: bool): (r: Option<(Path, string)>)
    ensures r.Some? ==> |r.value.1| < |s|
    decreases |s|
  {
    if |s| == 0 then None
    else if quoted then
      if s[0] == '\'' then ReadPath(s[1..], false)
      else Prepend(s[0], ReadPath(s[1..], true))
    else if s[0] == '\n' then Some(("", s[1..]))
    else if s[0] == '\'' then ReadPath(s[1..], true)
    else if s[0] == '\\' then
      if |s| == 1 then None else Prepend(s[1], ReadPath(s[2..], false))
    else Prepend(s[0], ReadPath(s[1..], false))
  }

  function Prepend(c: char, r: Option<(Path, string)>): (r': Option<(Path, string)>)
  {
    match r
    case None => None
    case Some((p, rest)) => Some(([c] + p, rest))
  }

  /** The directive every line of the list starts with. */
  const Directive: string := "file "

  /** The paths a list file names, in order; `None` for text that is not a
      sequence of `file` lines. */
  function ParseList(text: string): (r: Option<seq<Path>>)
    decreases |text|
  {
    if |text| == 0 then Some([])
    else if |text| < |Directive| || text[..|Directive|] != Directive then None
    else
      match ReadPath(text[|Directive|..], false)
      case None => None
      case Some((p, rest)) =>
        match ParseList(rest)
        case None => None
        case Some(ps) => Some([p] + ps)
  }

  /** Inside quotes, the escape sequence reads back as one literal quote. */
  lemma ReadQuoteEscape(tail: string)
    ensures ReadPath(QuoteEscape + tail, true) == Prepend('\'', ReadPath(tail, true))
  {
    var s := QuoteEscape + tail;
    var t1 := s[1..];
    assert t1 == "\\''" + tail;
    assert t1[1] == '\'' && t1[2..][0] == '\'' && t1[2..][1..] == tail;
    assert ReadPath(t1[2..], false) == ReadPath(tail, true);
    assert ReadPath(t1, false) == Prepend('\'', ReadPath(tail, true));
  }

  /** Inside quotes, any other character reads back as itself. */
  lemma ReadPlain(c: char, tail: string)
    requires c != '\''
    ensures ReadPath([c] + tail, true) == Prepend(c, ReadPath(tail, true))
  {
    assert ([c] + tail)[1..] == tail;
  }

  /** The written text regrouped as the first character's escape followed by
      the rest. */
  lemma EscapedSplit(p: Path, rest: string)
    requires |p| > 0
    ensures Escape(p) + "'\n" + rest
         == (if p[0] == '\'' then QuoteEscape else [p[0]]) + (Escape(p[1..]) + "'\n" + rest)
  {
    if p[0] == '\'' {
      assert Escape(p) == QuoteEscape + Escape(p[1..]);
      Regroup(QuoteEscape, Escape(p[1..]), "'\n", rest);
    } else {
      assert Escape(p) == [p[0]] + Escape(p[1..]);
      Regroup([p[0]], Escape(p[1..]), "'\n", rest);
    }
  }

  /** Reading an escaped path back inside its quotes gives the path. */
  lemma {:induction false} ReadEscaped(p: Path, rest: string)
    ensures ReadPath(Escape(p) + "'\n" + rest, true) == Some((p, rest))
    decreases |p|
  {
    if |p| == 0 {
      assert Escape(p) + "'\n" + rest == "'\n" + rest;
      assert ("'\n" + rest)[1..] == "\n" + rest;
      assert ("\n" + rest)[1..] == rest;
    } else {
      var tail := Escape(p[1..]) + "'\n" + rest;
      ReadEscaped(p[1..], rest);
      EscapedSplit(p, rest);
      if p[0] == '\'' {
        ReadQuoteEscape(tail);
      } else {
        ReadPlain(p[0], tail);
      }
      assert [p[0]] + p[1..] == p;
    }
  }

  /** A list line is read back as its path. */
  lemma LineRoundTrip(p: Path, rest: string)
    ensures ParseList(ListLine(p) + rest) == match ParseList(rest) case None => None case Some(ps) => Some([p] + ps)
  {
    var text := ListLine(p) + rest;
    assert text[..|Directive|] == Directive;
    var body := Escape(p) + "'\n" + rest;
    assert text[|Directive|..] == "'" + body;
    assert ("'" + body)[1..] == body;
    ReadEscaped(p, rest);
  }

  /** The list file: one line per clip, in the order given. Read back, it
      names exactly these paths, in order, whatever characters they contain. */
  function ListText(ps: seq<Path>): (text: string)
    ensures ParseList(text) == Some(ps)
    decreases |ps|
  {
    if |ps| == 0 then ""
    else
      var rest := ListText(ps[1..]);
      LineRoundTrip(ps[0], rest);
      assert [ps[0]] + ps[1..] == ps;
      ListLine(ps[0]) + rest
  }

  /** A path without quotes is written between the quotes unchanged. */
  lemma PlainPathLine(p: Path)
    requires forall i :: 0 <= i < |p| ==> p[i] != '\''
    ensures ListLine(p) == "file '" + p + "'\n"
  {
    NoQuotes(p);
  }

  lemma {:induction false} NoQuotes(s: string)
    requires forall i :: 0 <= i < |s| ==> s[i] != '\''
    ensures Quotes(s) == 0
    decreases |s|
  {
    if |s| > 0 {
      NoQuotes(s[1..]);
    }
  }

  // ---------------------------------------------------------------------------
  // Scale and pad
  // ---------------------------------------------------------------------------

  /** `x - (x % 2)`: Python's `%` by 2 is 0 or 1 for every integer, as in
      Dafny. */
  function EvenFloor(x: int): (e: int)
    ensures e % 2 == 0
    ensures x - 1 <= e <= x
  {
    x - x % 2
  }

  /** The even-rounded size is the largest even number not above the input. */
  lemma EvenFloorIsLargest(x: int, y: int)
    requires y % 2 == 0 && y <= x
    ensures y <= EvenFloor(x)
  {
  }

  /** `(target - scaled) // 2`: floor division by a positive divisor, the
      same in Python and Dafny. */
  function CentreOffset(target: int, scaled: int): (off: int)
    ensures 2 * off <= target - scaled <= 2 * off + 1
    ensures scaled <= target ==> 0 <= off && off + scaled <= target
  {
    (target - scaled) / 2
  }

  /** The `scale=...,pad=...` parameters. */
  datatype Frame = Frame(width: int, height: int, padX: int, padY: int)

  /** From the size the float scaling produced to the even size and the
      offsets that centre it on the `targetW` x `targetH` canvas. */
  function FitFrame(targetW: int, targetH: int, rawW: int, rawH: int): (f: Frame)
    ensures f.width % 2 == 0 && rawW - 1 <= f.width <= rawW
    ensures f.height % 2 == 0 && rawH - 1 <= f.height <= rawH
    ensures rawW <= targetW ==> 0 <= f.padX && f.padX + f.width <= targetW
    ensures rawH <= targetH ==> 0 <= f.padY && f.padY + f.height <= targetH
    ensures 0 <= (targetW - f.width) - 2 * f.padX <= 1
    ensures 0 <= (targetH - f.height) - 2 * f.padY <= 1
  {
    var w := EvenFloor(rawW);
    var h := EvenFloor(rawH);
    Frame(w, h, CentreOffset(targetW, w), CentreOffset(targetH, h))
  }

  // ---------------------------------------------------------------------------
  // The two scripts
  // ---------------------------------------------------------------------------

  /** What a run hands to the transcoder: the clips in play order, the list
      file naming them, and the frame they are scaled and padded into. */
  datatype ConcatPlan = ConcatPlan(order: seq<Path>, listText: string, frame: Frame)

  /** The plan for clips already capped and ordered; `fit` is the size the
      float scaling gives the first clip. */
  function PlanOf(order: seq<Path>, targetW: int, targetH: int, fit: Path -> (int, int)): (res: Result<ConcatPlan>)
    ensures res.Success? <==> |order| > 0
    ensures res.Failure? ==> res.fault == IndexError
    ensures res.Success? ==> res.value.order == order && ParseList(res.value.listText) == Some(order)
  {
    if |order| == 0 then Failure(IndexError)
    else
      var raw := fit(order[0]);
      Success(ConcatPlan(order, ListText(order), FitFrame(targetW, targetH, raw.0, raw.1)))
  }

  /** `concatenate_videos_advanced`: refuse an empty discovery, cap the list,
      shuffle it when asked, and plan the rest from the first clip. */
  function PlanConcatAdvanced(files: seq<Path>, targetW: int, targetH: int, maxVideos: Option<int>,
                              shuffle: bool, fit: Path -> (int, int), swaps: seq<nat>): (res: Result<ConcatPlan>)
    requires shuffle ==> SwapsFit(|Cap(files, maxVideos)|, swaps)
    ensures |files| == 0 <==> res == Failure(NoSourceFiles)
    ensures res.Success? <==> |Cap(files, maxVideos)| > 0
    ensures res.Success? ==> multiset(res.value.order) == multiset(Cap(files, maxVideos))
    ensures res.Success? && !shuffle ==> res.value.order == Cap(files, maxVideos)
    ensures res.Success? ==> ParseList(res.value.listText) == Some(res.value.order)
  {
    if |files| == 0 then Failure(NoSourceFiles)
    else PlanOf(MaybeShuffle(Cap(files, maxVideos), shuffle, swaps), targetW, targetH, fit)
  }

  /** `concatenate_videos`: return early on an empty discovery, always
      shuffle, and plan the rest from the first clip. */
  function PlanConcatBasic(files: seq<Path>, targetW: int, targetH: int, fit: Path -> (int, int),
                           swaps: seq<nat>): (res: Result<ConcatPlan>)
    requires SwapsFit(|files|, swaps)
    ensures res.Failure? <==> |files| == 0
    ensures res.Failure? ==> res.fault == NoSourceFiles
    ensures res.Success? ==> multiset(res.value.order) == multiset(files)
    ensures res.Success? ==> ParseList(res.value.listText) == Some(res.value.order)
  {
    if |files| == 0 then Failure(NoSourceFiles)
    else PlanOf(Shuffle(files, swaps), targetW, targetH, fit)
  }

  /** A positive cap plays only the first `k` discovered clips, in some order. */
  lemma CappedConcatUsesDiscoveryPrefix(files: seq<Path>, targetW: int, targetH: int, k: int,
                                        shuffle: bool, fit: Path -> (int, int), swaps: seq<nat>)
    requires k > 0 && |files| > 0
    requires shuffle ==> SwapsFit(|Cap(files, Some(k))|, swaps)
    ensures var res := PlanConcatAdvanced(files, targetW, targetH, Some(k), shuffle, fit, swaps);
      && res.Success?
      && multiset(res.value.order) == multiset(files[..Min(k, |files|)])
  {
    var capped := Cap(files, Some(k));
    assert capped == files[..Min(k, |files|)];
  }
}
