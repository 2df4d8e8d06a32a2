/** The text helpers of the workshop page (App.jsx) that turn a model
    reply into display blocks: `cleanLatex`, `parseBold` and the
    line classification of `renderMarkdown`. */
module WorkshopText {
  import opened Wrappers
  import opened Strings

  // ---------------------------------------------------------------------
  // cleanLatex

  const Fence: string := "```"
  const LatexFence: string := "```latex"

  /** `text.replace(/```latex|```/g, "")`: a left-to-right scan that at
      each position removes "```latex" if it starts there, else "```" if
      that starts there, else keeps one character. */
  function RemoveFences(s: string): (r: string)
    ensures |r| <= |s|
    decreases |s|
  {
    if StartsWith(s, LatexFence) then RemoveFences(s[8..])
    else if StartsWith(s, Fence) then RemoveFences(s[3..])
    else if s == [] then []
    else [s[0]] + RemoveFences(s[1..])
  }

  /** What the scan leaves cannot start with more backticks than the
      input did. */
  lemma {:induction false} RemoveFencesHead(u: string)
    ensures RemoveFences(u) != [] && RemoveFences(u)[0] == '`' ==> u != [] && u[0] == '`'
    ensures |RemoveFences(u)| >= 2 && RemoveFences(u)[0] == '`' && RemoveFences(u)[1] == '`' ==>
              |u| >= 2 && u[0] == '`' && u[1] == '`'
    decreases |u|
  {
    if StartsWith(u, LatexFence) || StartsWith(u, Fence) {
    } else if u != [] {
      RemoveFencesHead(u[1..]);
    }
  }

  /** Three backticks start at index `i` of `t`. */
  predicate TickRun(t: string, i: int)
  {
    0 <= i && i + 2 < |t| && t[i] == '`' && t[i + 1] == '`' && t[i + 2] == '`'
  }

  lemma TickRunIsFence(t: string, i: int)
    ensures TickRun(t, i) <==> OccursAt(t, Fence, i)
  {
    if OccursAt(t, Fence, i) {
      assert t[i..i + 3][0] == t[i] && t[i..i + 3][1] == t[i + 1] && t[i..i + 3][2] == t[i + 2];
    }
    if TickRun(t, i) {
      assert t[i..i + 3] == Fence;
    }
  }

  lemma {:induction false} NoTickRunLeft(s: string)
    ensures forall i :: !TickRun(RemoveFences(s), i)
    decreases |s|
  {
    if StartsWith(s, LatexFence) {
      NoTickRunLeft(s[8..]);
    } else if StartsWith(s, Fence) {
      NoTickRunLeft(s[3..]);
    } else if s != [] {
      NoTickRunLeft(s[1..]);
      RemoveFencesHead(s[1..]);
      assert !TickRun(s, 0) by {
        TickRunIsFence(s, 0);
      }
      var rest := RemoveFences(s[1..]);
      var r := [s[0]] + rest;
      assert RemoveFences(s) == r;
      forall i
        ensures !TickRun(r, i)
      {
        if i > 0 {
          assert !TickRun(rest, i - 1);
        } else if |s| >= 3 && |rest| >= 2 {
          assert s[1..][0] == s[1] && s[1..][1] == s[2];
        }
      }
    }
  }

  /** No "```" survives `cleanLatex`'s replacement, even where removing a
      fence brings backticks together. */
  lemma NoFenceLeft(s: string)
    ensures forall i :: !OccursAt(RemoveFences(s), Fence, i)
  {
    NoTickRunLeft(s);
    forall i
      ensures !OccursAt(RemoveFences(s), Fence, i)
    {
      TickRunIsFence(RemoveFences(s), i);
    }
  }

  /** A text with no "```" is left as it is. */
  lemma {:induction false} RemoveFencesIdentity(s: string)
    requires forall i :: !OccursAt(s, Fence, i)
    ensures RemoveFences(s) == s
    decreases |s|
  {
    if s != [] {
      assert !OccursAt(s, Fence, 0);
      forall i | OccursAt(s[1..], Fence, i)
        ensures false
      {
        assert s[1..][i..i + 3] == s[i + 1..i + 4];
        assert OccursAt(s, Fence, i + 1);
      }
      RemoveFencesIdentity(s[1..]);
      assert s == [s[0]] + s[1..];
    }
  }

  /** Removing the fences twice is removing them once. */
  lemma RemoveFencesIdempotent(s: string)
    ensures RemoveFences(RemoveFences(s)) == RemoveFences(s)
  {
    NoFenceLeft(s);
    RemoveFencesIdentity(RemoveFences(s));
  }

  /** A fence-free text that does not end in a backtick passes through
      the scan unchanged, whatever follows it: no fence can start inside
      it. */
  lemma {:induction false} RemoveFencesKeeps(x: string, y: string)
    requires forall i :: !OccursAt(x, Fence, i)
    requires x == [] || x[|x| - 1] != '`'
    ensures RemoveFences(x + y) == x + RemoveFences(y)
    decreases |x|
  {
    if x == [] {
      assert x + y == y;
    } else {
      RemoveFencesStep(x, y);
      FenceFreeTail(x);
      RemoveFencesKeeps(x[1..], y);
      assert x == [x[0]] + x[1..];
    }
  }

  /** One step of that scan: the first character of `x` is kept. */
  lemma RemoveFencesStep(x: string, y: string)
    requires forall i :: !OccursAt(x, Fence, i)
    requires x != [] && x[|x| - 1] != '`'
    ensures RemoveFences(x + y) == [x[0]] + RemoveFences(x[1..] + y)
  {
    var s := x + y;
    NoFenceAtHead(x, y);
    assert s[1..] == x[1..] + y;
  }

  /** No fence starts at the head of `x + y` when `x` has none and does
      not end in a backtick. */
  lemma NoFenceAtHead(x: string, y: string)
    requires forall i :: !OccursAt(x, Fence, i)
    requires x != [] && x[|x| - 1] != '`'
    ensures !StartsWith(x + y, Fence) && !StartsWith(x + y, LatexFence)
  {
    var s := x + y;
    assert !StartsWith(s, Fence) by {
      if |x| >= 3 {
        assert s[..3] == x[0..3];
        assert !OccursAt(x, Fence, 0);
      } else {
        assert s[|x| - 1] == x[|x| - 1];
      }
    }
    assert LatexFence[..3] == Fence;
    if |s| >= 8 {
      assert s[..8][..3] == s[..3];
    }
  }

  /** The tail of a fence-free text is fence-free. */
  lemma FenceFreeTail(x: string)
    requires forall i :: !OccursAt(x, Fence, i)
    requires x != []
    ensures forall i :: !OccursAt(x[1..], Fence, i)
  {
    forall i
      ensures !OccursAt(x[1..], Fence, i)
    {
      if OccursAt(x[1..], Fence, i) {
        assert x[1..][i..i + 3] == x[i + 1..i + 4];
        assert OccursAt(x, Fence, i + 1);
      }
    }
  }

  /** The first fence of a text: the text before it is kept as it is,
      the fence ("```latex" if "latex" follows the backticks, else
      "```") is dropped, and the scan goes on after it. With
      `RemoveFencesIdentity` this determines the result for every
      text. */
  lemma RemoveFencesAtFirst(s: string, i: nat)
    requires OccursAt(s, Fence, i)
    requires forall j :: 0 <= j < i ==> !OccursAt(s, Fence, j)
    ensures RemoveFences(s) ==
              s[..i] + RemoveFences(if StartsWith(s[i + 3..], "latex") then s[i + 8..] else s[i + 3..])
  {
    var x, y := s[..i], s[i + 3..];
    BeforeFirstFence(s, i);
    RemoveFencesKeeps(x, Fence + y);
    assert s == x + (Fence + y) by {
      assert s[i..i + 3] == Fence;
    }
    RemoveFencesFence(y);
    if StartsWith(y, "latex") {
      assert y[5..] == s[i + 8..];
    }
  }

  /** What comes before the first fence has no fence and does not end in
      a backtick (else the fence would start one earlier). */
  lemma BeforeFirstFence(s: string, i: nat)
    requires OccursAt(s, Fence, i)
    requires forall j :: 0 <= j < i ==> !OccursAt(s, Fence, j)
    ensures forall j :: !OccursAt(s[..i], Fence, j)
    ensures i == 0 || s[i - 1] != '`'
  {
    var x := s[..i];
    forall j
      ensures !OccursAt(x, Fence, j)
    {
      if OccursAt(x, Fence, j) {
        assert x[j..j + 3] == s[j..j + 3];
        assert OccursAt(s, Fence, j);
      }
    }
    if i >= 1 {
      assert s[i..i + 3][0] == s[i] && s[i..i + 3][1] == s[i + 1];
      assert !OccursAt(s, Fence, i - 1);
      assert s[i - 1..i + 2][1..] == s[i..i + 2];
    }
  }

  /** A fence at the head is dropped, with "latex" after it when that
      follows. */
  lemma RemoveFencesFence(y: string)
    ensures RemoveFences(Fence + y) == RemoveFences(if StartsWith(y, "latex") then y[5..] else y)
  {
    var t := Fence + y;
    assert t[..3] == Fence;
    assert t[3..] == y;
    assert StartsWith(t, LatexFence) <==> StartsWith(y, "latex") by {
      assert LatexFence == Fence + "latex";
      if |y| >= 5 {
        assert t[..8] == Fence + y[..5];
      }
    }
    if StartsWith(y, "latex") {
      assert t[8..] == y[5..];
    }
  }

  /** `cleanLatex(text)`: the fences removed, then the ends trimmed. */
  function CleanLatex(text: string): (r: string)
    ensures forall i :: !OccursAt(r, Fence, i)
    ensures r == [] || (!IsSpace(r[0]) && !IsSpace(r[|r| - 1]))
  {
    var f := RemoveFences(text);
    var r := Trim(f);
    NoFenceLeft(text);
    var k := TrimOffset(f);
    forall i
      ensures !OccursAt(r, Fence, i)
    {
      OccursInSlice(f, k, k + |r|, Fence, i);
    }
    r
  }

  /** A text without fences is only trimmed. */
  lemma CleanLatexPlain(text: string)
    requires forall i :: !OccursAt(text, Fence, i)
    ensures CleanLatex(text) == Trim(text)
  {
    RemoveFencesIdentity(text);
  }

  /** At the first fence, everything before it is kept; only the fence
      itself goes, and the rest is cleaned in turn before the trim. */
  lemma CleanLatexAtFirst(text: string, i: nat)
    requires OccursAt(text, Fence, i)
    requires forall j :: 0 <= j < i ==> !OccursAt(text, Fence, j)
    ensures CleanLatex(text) ==
              Trim(text[..i] + RemoveFences(if StartsWith(text[i + 3..], "latex") then text[i + 8..] else text[i + 3..]))
  {
    RemoveFencesAtFirst(text, i);
  }

  /** A LaTeX block wrapped in fences comes out as the trimmed block. */
  lemma CleanLatexBlock(body: string)
    requires forall i :: !OccursAt(body, Fence, i)
    requires body == [] || body[|body| - 1] != '`'
    ensures CleanLatex(LatexFence + body + Fence) == Trim(body)
  {
    var s := LatexFence + body + Fence;
    assert OccursAt(s, Fence, 0) by {
      assert s[..3] == Fence;
    }
    assert s[3..][..5] == "latex";
    assert s[8..] == body + Fence;
    RemoveFencesAtFirst(s, 0);
    assert s[..0] == [];
    RemoveFencesKeeps(body, Fence);
    assert RemoveFences(Fence) == RemoveFences([]);
    assert body + [] == body;
  }

  // ---------------------------------------------------------------------
  // parseBold

  /** The characters `.` does not match in a regular expression. */
  predicate IsLineTerminator(c: char)
  {
    c == '\n' || c == '\r' || c == '\U{2028}' || c == '\U{2029}'
  }

  /** "**" starts at index `i` of `t`. */
  predicate StarsAt(t: string, i: int)
  {
    0 <= i && i + 1 < |t| && t[i] == '*' && t[i + 1] == '*'
  }

  /** The lazy `.*?\*\*` after an opening "**" that ends at index `i`:
      the index of the first "**" at or after `i`, provided no line
      terminator comes before it. */
  function CloseAt(s: string, i: nat): (j: Option<nat>)
    ensures j.Some? ==> i <= j.value && j.value + 2 <= |s|
    decreases |s| - i
  {
    if StarsAt(s, i) then Some(i)
    else if i < |s| && !IsLineTerminator(s[i]) then CloseAt(s, i + 1)
    else None
  }

  /** The "**" found is the first one, and the text before it stays on
      one line; when none is found, every later "**" comes after a line
      terminator. */
  lemma {:induction false} CloseAtSpec(s: string, i: nat)
    ensures var j := CloseAt(s, i);
      && (j.Some? ==> StarsAt(s, j.value))
      && (j.Some? ==> forall k :: i <= k < j.value ==> !IsLineTerminator(s[k]) && !StarsAt(s, k))
      && (j.None? ==> forall k :: i <= k && StarsAt(s, k) ==> exists m :: i <= m < k && IsLineTerminator(s[m]))
    decreases |s| - i
  {
    if !StarsAt(s, i) {
      if i < |s| && !IsLineTerminator(s[i]) {
        CloseAtSpec(s, i + 1);
      } else {
        forall k | i <= k && StarsAt(s, k)
          ensures exists m :: i <= m < k && IsLineTerminator(s[m])
        {
          assert IsLineTerminator(s[i]);
        }
      }
    }
  }

  /** A run matched by `\*\*.*?\*\*`. */
  predicate IsBoldRun(u: string)
  {
    && |u| >= 4 && StarsAt(u, 0) && StarsAt(u, |u| - 2)
    && forall j :: 2 <= j < |u| - 2 ==> !IsLineTerminator(u[j]) && !StarsAt(u, j)
  }

  /** Where a match of `\*\*.*?\*\*` that starts at index `i` ends, if
      one starts there. */
  function MatchAt(s: string, i: nat): (e: Option<nat>)
    ensures e.Some? ==> i + 4 <= e.value <= |s|
  {
    if StarsAt(s, i) then
      match CloseAt(s, i + 2)
      case Some(j) => Some(j + 2)
      case None => None
    else
      None
  }

  /** What `MatchAt` finds is a bold run. */
  lemma MatchAtBold(s: string, i: nat)
    ensures MatchAt(s, i).Some? ==> IsBoldRun(s[i..MatchAt(s, i).value])
  {
    if StarsAt(s, i) && CloseAt(s, i + 2).Some? {
      var j := CloseAt(s, i + 2).value;
      CloseAtSpec(s, i + 2);
      var u := s[i..j + 2];
      assert u[0] == s[i] && u[1] == s[i + 1];
      assert u[|u| - 2] == s[j] && u[|u| - 1] == s[j + 1];
      forall k | 2 <= k < |u| - 2
        ensures !IsLineTerminator(u[k]) && !StarsAt(u, k)
      {
        assert u[k] == s[i + k] && u[k + 1] == s[i + k + 1];
        assert !StarsAt(s, i + k);
      }
    }
  }

  /** The split scanning from index `i`, the current piece having started
      at `start`: at each index either a match starts, which closes the
      current piece, adds the match, and restarts after it, or the scan
      moves one character on; at the end the current piece is the last. */
  function PiecesFrom(s: string, start: nat, i: nat): (ps: seq<string>)
    requires start <= i <= |s|
    ensures |ps| >= 1
    decreases |s| - i
  {
    match MatchAt(s, i)
    case Some(e) => [s[start..i], s[i..e]] + PiecesFrom(s, e, e)
    case None => if i == |s| then [s[start..]] else PiecesFrom(s, start, i + 1)
  }

  /** `text.split(/(\*\*.*?\*\*)/g)`: the text before each match and the
      match itself (the capture group), then the text after the last
      match. */
  function Pieces(s: string): (ps: seq<string>)
    ensures |ps| >= 1
  {
    PiecesFrom(s, 0, 0)
  }

  lemma {:induction false} PiecesFromConcat(s: string, start: nat, i: nat)
    requires start <= i <= |s|
    ensures Concat(PiecesFrom(s, start, i)) == s[start..]
    decreases |s| - i
  {
    match MatchAt(s, i)
    case Some(e) =>
      var rest := PiecesFrom(s, e, e);
      PiecesFromConcat(s, e, e);
      var ps := [s[start..i], s[i..e]] + rest;
      assert ps[1..] == [s[i..e]] + rest;
      assert ps[1..][1..] == rest;
      assert s[start..i] + (s[i..e] + s[e..]) == s[start..];
    case None =>
      if i == |s| {
        assert Concat([s[start..]]) == s[start..] + Concat([]);
      } else {
        PiecesFromConcat(s, start, i + 1);
      }
  }

  /** The pieces put back together are the text. */
  lemma PiecesConcat(s: string)
    ensures Concat(Pieces(s)) == s
  {
    PiecesFromConcat(s, 0, 0);
    assert s[0..] == s;
  }

  /** The scan: no match starts inside the current piece. */
  lemma {:induction false} PiecesFromLead(s: string, start: nat, i: nat)
    requires start <= i <= |s|
    requires forall j :: start <= j < i ==> MatchAt(s, j).None?
    ensures start + |PiecesFrom(s, start, i)[0]| <= |s|
    ensures forall j :: start <= j < start + |PiecesFrom(s, start, i)[0]| ==> MatchAt(s, j).None?
    decreases |s| - i
  {
    if MatchAt(s, i).None? && i < |s| {
      PiecesFromLead(s, start, i + 1);
    }
  }

  /** With more than one piece, the second is the match that ends the
      first, and the rest come from the scan restarted after that match. */
  lemma {:induction false} PiecesFromNext(s: string, start: nat, i: nat)
    requires start <= i <= |s|
    requires |PiecesFrom(s, start, i)| > 1
    ensures var ps := PiecesFrom(s, start, i);
      var p := start + |ps[0]|;
      && p + |ps[1]| <= |s|
      && MatchAt(s, p) == Some(p + |ps[1]|)
      && ps[1] == s[p..p + |ps[1]|]
      && ps[2..] == PiecesFrom(s, p + |ps[1]|, p + |ps[1]|)
    decreases |s| - i
  {
    match MatchAt(s, i)
    case Some(e) =>
      var ps := [s[start..i], s[i..e]] + PiecesFrom(s, e, e);
      assert ps[2..] == PiecesFrom(s, e, e);
    case None =>
      PiecesFromNext(s, start, i + 1);
  }

  /** The first piece is the text before the leftmost match: no match
      starts inside it. With more than one piece, the second is that
      match, and the remaining pieces are the split of the text after
      it, the scan going on from the end of the match. */
  lemma PiecesShape(s: string)
    ensures var ps := Pieces(s);
      && (forall j :: 0 <= j < |ps[0]| ==> MatchAt(s, j).None?)
      && (|ps| > 1 ==>
            var p := |ps[0]|;
            && MatchAt(s, p) == Some(p + |ps[1]|)
            && ps[1] == s[p..p + |ps[1]|]
            && ps[2..] == PiecesFrom(s, p + |ps[1]|, p + |ps[1]|))
  {
    PiecesFromLead(s, 0, 0);
    if |Pieces(s)| > 1 {
      PiecesFromNext(s, 0, 0);
    }
  }

  /** Every odd-indexed piece is a bold run. */
  predicate OddPiecesBold(ps: seq<string>)
  {
    forall k :: 0 <= k < |ps| && k % 2 == 1 ==> IsBoldRun(ps[k])
  }

  lemma {:induction false} PiecesFromBold(s: string, start: nat, i: nat)
    requires start <= i <= |s|
    ensures OddPiecesBold(PiecesFrom(s, start, i))
    decreases |s| - i
  {
    match MatchAt(s, i)
    case Some(e) =>
      var rest := PiecesFrom(s, e, e);
      var ps := [s[start..i], s[i..e]] + rest;
      PiecesFromBold(s, e, e);
      MatchAtBold(s, i);
      forall k | 0 <= k < |ps| && k % 2 == 1
        ensures IsBoldRun(ps[k])
      {
        if k > 1 {
          assert ps[k] == rest[k - 2] && (k - 2) % 2 == 1;
        } else {
          assert ps[1] == s[i..e];
        }
      }
    case None =>
      if i < |s| {
        PiecesFromBold(s, start, i + 1);
      }
  }

  /** Every odd-indexed piece is a match of `\*\*.*?\*\*`. */
  lemma PiecesBold(s: string)
    ensures OddPiecesBold(Pieces(s))
  {
    PiecesFromBold(s, 0, 0);
  }

  /** What `parseBold` renders each piece as. */
  datatype Segment = Plain(text: string) | Bold(text: string)

  /** `u.slice(2, -2)`. */
  function SliceMarkers(u: string): (r: string)
    ensures |u| >= 4 ==> u == u[..2] + r + u[|u| - 2..]
    ensures |u| < 4 ==> r == ""
  {
    if |u| >= 4 then u[2..|u| - 2] else ""
  }

  /** A piece that starts and ends with "**" is shown in bold without
      the markers; any other piece is shown as it is. */
  function SegmentOf(part: string): Segment
  {
    if StartsWith(part, "**") && EndsWith(part, "**") then Bold(SliceMarkers(part))
    else Plain(part)
  }

  /** `parseBold(text)`: one segment per piece of the split. */
  function ParseBold(text: string): (segs: seq<Segment>)
    ensures |segs| == |Pieces(text)|
  {
    var ps := Pieces(text);
    seq(|ps|, i requires 0 <= i < |ps| => SegmentOf(ps[i]))
  }

  /** A bold run is shown in bold: its text is on one line and holds no
      "**", and putting the markers back gives the run. */
  lemma BoldRunSegment(u: string)
    requires IsBoldRun(u)
    ensures SegmentOf(u).Bold?
    ensures "**" + SegmentOf(u).text + "**" == u
    ensures var inner := SegmentOf(u).text;
      (forall j :: 0 <= j < |inner| ==> !IsLineTerminator(inner[j])) && (forall j :: !StarsAt(inner, j))
  {
    assert u[..2] == "**" && u[|u| - 2..] == "**";
    var inner := u[2..|u| - 2];
    assert SegmentOf(u) == Bold(inner);
    forall j
      ensures !StarsAt(inner, j)
    {
      if StarsAt(inner, j) {
        assert StarsAt(u, j + 2);
      }
    }
    forall j | 0 <= j < |inner|
      ensures !IsLineTerminator(inner[j])
    {
      assert inner[j] == u[j + 2];
    }
  }

  /** Every match of the bold pattern is shown in bold, with the markers
      removed. */
  lemma ParseBoldMatches(text: string, i: nat)
    requires i < |Pieces(text)| && i % 2 == 1
    ensures ParseBold(text)[i].Bold?
    ensures "**" + ParseBold(text)[i].text + "**" == Pieces(text)[i]
    ensures var inner := ParseBold(text)[i].text;
      (forall j :: 0 <= j < |inner| ==> !IsLineTerminator(inner[j])) && (forall j :: !StarsAt(inner, j))
  {
    PiecesBold(text);
    BoldRunSegment(Pieces(text)[i]);
  }

  lemma {:induction false} PiecesFromNoMarkers(s: string, start: nat, i: nat)
    requires start <= i <= |s|
    requires forall j :: !StarsAt(s, j)
    ensures PiecesFrom(s, start, i) == [s[start..]]
    decreases |s| - i
  {
    if i < |s| {
      PiecesFromNoMarkers(s, start, i + 1);
    }
  }

  /** A text with no "**" is one plain segment. */
  lemma NoMarkers(text: string)
    requires forall j :: !StarsAt(text, j)
    ensures Pieces(text) == [text]
    ensures ParseBold(text) == [Plain(text)]
  {
    PiecesFromNoMarkers(text, 0, 0);
    assert text[0..] == text;
    if StartsWith(text, "**") {
      assert text[..2][0] == text[0] && text[..2][1] == text[1];
      assert StarsAt(text, 0);
    }
  }

  /** A run of characters other than '*' and line terminators, followed
      by "**", is closed by that "**". */
  lemma {:induction false} CloseAtRun(s: string, i: nat, j: nat)
    requires i <= j && StarsAt(s, j)
    requires forall k :: i <= k < j ==> s[k] != '*' && !IsLineTerminator(s[k])
    ensures CloseAt(s, i) == Some(j)
    decreases j - i
  {
    if i < j {
      CloseAtRun(s, i + 1, j);
    }
  }

  /** "**word**" is a plain "", the word in bold, and a plain "". */
  lemma OneBoldWord(t: string)
    requires forall j :: 0 <= j < |t| ==> t[j] != '*' && !IsLineTerminator(t[j])
    ensures ParseBold("**" + t + "**") == [Plain(""), Bold(t), Plain("")]
  {
    var s := "**" + t + "**";
    var n := |s|;
    assert StarsAt(s, 0) && StarsAt(s, n - 2);
    forall k | 2 <= k < n - 2
      ensures s[k] != '*' && !IsLineTerminator(s[k])
    {
      assert s[k] == t[k - 2];
    }
    CloseAtRun(s, 2, n - 2);
    assert MatchAt(s, 0) == Some(n);
    assert Pieces(s) == [s[0..0], s[0..n]] + PiecesFrom(s, n, n);
    assert PiecesFrom(s, n, n) == [s[n..]];
    assert s[0..n] == s && s[n..] == "";
    assert s[2..n - 2] == t;
    assert s[..2] == "**" && s[n - 2..] == "**";
  }

  /** The text a segment stands for: a plain segment as it is, a bold
      one with its markers put back. */
  function Unmark(g: Segment): string
  {
    match g
    case Plain(p) => p
    case Bold(b) => "**" + b + "**"
  }

  /** The segments read back into text, one after another. */
  function Unparse(segs: seq<Segment>): string
  {
    if segs == [] then "" else Unmark(segs[0]) + Unparse(segs[1..])
  }

  /** A piece reads back as itself exactly unless it is "**" or "***":
      those start and end with "**" but are too short for
      `slice(2, -2)` to keep anything, so they become an empty bold
      segment and their stars are lost. */
  lemma SegmentRoundTrip(part: string)
    ensures Unmark(SegmentOf(part)) == part <==> part != "**" && part != "***"
  {
    assert StartsWith("**", "**") && EndsWith("**", "**");
    assert StartsWith("***", "**") && EndsWith("***", "**");
    if StartsWith(part, "**") && EndsWith(part, "**") {
      if |part| >= 4 {
        assert part[..2] == "**" && part[|part| - 2..] == "**";
      } else if |part| == 3 {
        assert part[..2] == "**" && part[1..] == "**";
        assert part[0] == '*' && part[1] == '*' && part[2] == '*';
        assert part == "***";
      } else {
        assert part == part[..2];
      }
    }
  }

  /** Reading back segments made piece by piece gives the pieces put
      together, when no piece is "**" or "***". */
  lemma {:induction false} UnparsePieces(segs: seq<Segment>, ps: seq<string>)
    requires |segs| == |ps|
    requires forall k :: 0 <= k < |ps| ==> segs[k] == SegmentOf(ps[k])
    requires forall k :: 0 <= k < |ps| ==> ps[k] != "**" && ps[k] != "***"
    ensures Unparse(segs) == Concat(ps)
    decreases |ps|
  {
    if ps != [] {
      SegmentRoundTrip(ps[0]);
      UnparsePieces(segs[1..], ps[1..]);
    }
  }

  /** `parseBold` loses nothing: its segments, with the markers of the
      bold ones put back, are the text again, unless a piece between two
      matches is a stray "**" or "***". Matches are never such pieces. */
  lemma ParseBoldRoundTrip(text: string)
    requires forall k :: 0 <= k < |Pieces(text)| && k % 2 == 0 ==>
               Pieces(text)[k] != "**" && Pieces(text)[k] != "***"
    ensures Unparse(ParseBold(text)) == text
  {
    var ps := Pieces(text);
    PiecesBold(text);
    forall k | 0 <= k < |ps|
      ensures ps[k] != "**" && ps[k] != "***"
    {
      if k % 2 == 1 {
        assert IsBoldRun(ps[k]);
      }
    }
    UnparsePieces(ParseBold(text), ps);
    PiecesConcat(text);
  }

  /** The exception: a stray "**" is shown as an empty bold segment, so
      reading the segments back gives "****". */
  lemma StrayMarkers()
    ensures ParseBold("**") == [Bold("")]
    ensures Unparse(ParseBold("**")) == "****"
  {
    var s := "**";
    assert CloseAt(s, 2) == None;
    assert MatchAt(s, 0) == None && MatchAt(s, 1) == None && MatchAt(s, 2) == None;
    assert PiecesFrom(s, 0, 2) == [s];
    assert Pieces(s) == [s];
    assert StartsWith(s, "**") && EndsWith(s, "**");
  }

  // ---------------------------------------------------------------------
  // renderMarkdown

  /** The number of '#' characters that `s` starts with. */
  function HashRun(s: string): (n: nat)
    ensures n <= |s|
    ensures forall i :: 0 <= i < n ==> s[i] == '#'
    ensures n < |s| ==> s[n] != '#'
    decreases |s|
  {
    if s != [] && s[0] == '#' then 1 + HashRun(s[1..]) else 0
  }

  /** `/^#+\s/` matches the first `n + 1` characters of `s`. */
  predicate MarkerOf(s: string, n: int)
  {
    1 <= n < |s| && (forall i :: 0 <= i < n ==> s[i] == '#') && IsSpace(s[n])
  }

  /** `s.replace(/^#+\s/, "")`: the greedy `#+` takes the whole run of
      '#' and gives back nothing, since '#' is not white space. */
  function StripHeadingMarker(s: string): string
  {
    var n := HashRun(s);
    if n >= 1 && n < |s| && IsSpace(s[n]) then s[n + 1..] else s
  }

  /** The match, when there is one, is unique and is what is removed;
      with no match the text is unchanged. */
  lemma StripHeadingMarkerMatch(s: string)
    ensures forall n :: MarkerOf(s, n) ==> StripHeadingMarker(s) == s[n + 1..]
    ensures (forall n :: !MarkerOf(s, n)) ==> StripHeadingMarker(s) == s
  {
    var h := HashRun(s);
    assert forall n :: MarkerOf(s, n) ==> n == h;
    if h >= 1 && h < |s| && IsSpace(s[h]) {
      assert MarkerOf(s, h);
    }
  }

  /** What `renderMarkdown` makes of one line. */
  datatype Block =
    | Spacer
    | Bullet(segments: seq<Segment>)
    | Heading(segments: seq<Segment>)
    | Paragraph(segments: seq<Segment>)

  predicate IsBulletStart(t: string)
  {
    StartsWith(t, "* ") || StartsWith(t, "- ")
  }

  /** The classification of one line: a blank line is a spacer; a line
      whose trimmed text starts with "* " or "- " is a bullet of the
      trimmed text from its third character; one that starts with '#' is
      a heading without its marker; any other line is a paragraph of the
      line as it is, untrimmed. */
  function ClassifyLine(line: string): Block
  {
    var trimmed := Trim(line);
    if trimmed == "" then Spacer
    else if IsBulletStart(trimmed) then Bullet(ParseBold(trimmed[2..]))
    else if StartsWith(trimmed, "#") then Heading(ParseBold(StripHeadingMarker(trimmed)))
    else Paragraph(ParseBold(line))
  }

  /** The four kinds, each characterised by the line alone. */
  lemma ClassifyLineKinds(line: string)
    ensures ClassifyLine(line) == Spacer <==> IsBlank(line)
    ensures ClassifyLine(line).Bullet? <==> !IsBlank(line) && IsBulletStart(Trim(line))
    ensures ClassifyLine(line).Heading? <==>
              !IsBlank(line) && !IsBulletStart(Trim(line)) && Trim(line)[0] == '#'
    ensures ClassifyLine(line).Paragraph? ==> ClassifyLine(line).segments == ParseBold(line)
  {
    TrimEmpty(line);
    StartsWithChar(Trim(line), '#');
  }

  /** Indentation changes only paragraphs, which keep it: a spacer, a
      bullet or a heading is the same block however far it is indented. */
  lemma IndentIgnored(w: string, line: string)
    requires IsBlank(w)
    ensures !ClassifyLine(line).Paragraph? ==> ClassifyLine(w + line) == ClassifyLine(line)
    ensures ClassifyLine(line).Paragraph? ==> ClassifyLine(w + line) == Paragraph(ParseBold(w + line))
  {
    TrimStartBlankPrefix(w, line);
    assert Trim(w + line) == Trim(line);
  }

  /** `renderMarkdown(text)`: nothing for an empty text, otherwise one
      block per line of `text.split("\n")`. */
  function RenderMarkdown(text: string): (blocks: Option<seq<Block>>)
    ensures blocks.None? <==> text == ""
    ensures blocks.Some? ==> |blocks.value| == |Split(text, '\n')|
  {
    if text == "" then None
    else
      var lines := Split(text, '\n');
      Some(seq(|lines|, i requires 0 <= i < |lines| => ClassifyLine(lines[i])))
  }

  /** Lines joined with newlines render one block each, in order. */
  lemma RenderLines(lines: seq<string>)
    requires |lines| >= 1 && Join(lines, "\n") != ""
    requires forall k :: 0 <= k < |lines| ==> '\n' !in lines[k]
    ensures var r := RenderMarkdown(Join(lines, "\n"));
      r.Some? && |r.value| == |lines| && forall k :: 0 <= k < |lines| ==> r.value[k] == ClassifyLine(lines[k])
  {
    SplitJoin(lines, '\n');
  }
}
