/**
 * The status bar's character clipper: the lines of a message are kept in
 * order until a character budget runs out, the line that crosses the budget
 * is cut short, and everything after it is dropped.
 */
module Statusbar {

  /** The status bar shows at most this many characters of a message body. */
  const StatusBudget: int := 200

  /** The number of characters in all of `lines` together. */
  function TotalLength(lines: seq<string>): (n: nat)
    ensures lines == [] ==> n == 0
  {
    if lines == [] then 0 else |lines[0]| + TotalLength(lines[1..])
  }

  /** All of `lines` joined with nothing between them. */
  function Joined(lines: seq<string>): (s: string)
    ensures |s| == TotalLength(lines)
  {
    if lines == [] then "" else lines[0] + Joined(lines[1..])
  }

  /**
   * What the clipper keeps of `lines` when `room` characters are left: a line
   * that fits is kept and its length spent; the first line that does not fit
   * is cut to the room left, or dropped when no room is left, and ends the list.
   */
  function Clipped(lines: seq<string>, room: int): (r: seq<string>)
    ensures |r| <= |lines|
    ensures room < 0 ==> r == []
  {
    if lines == [] then []
    else if |lines[0]| <= room then [lines[0]] + Clipped(lines[1..], room - |lines[0]|)
    else if room > 0 then [lines[0][..room]]
    else []
  }

  /** Lengths add up across a concatenation of line lists. */
  lemma {:induction false} TotalLengthAppend(a: seq<string>, b: seq<string>)
    ensures TotalLength(a + b) == TotalLength(a) + TotalLength(b)
  {
    if a == [] {
      assert a + b == b;
    } else {
      assert (a + b)[1..] == a[1..] + b;
      TotalLengthAppend(a[1..], b);
    }
  }

  /**
   * `clipper`. The loop keeps `used` equal to the characters pushed so far,
   * and what is still to come is exactly the clipping of the rest of the
   * input with the room that is left.
   */
  method Clip(strings: seq<string>, maxTotalCharacters: int) returns (result: seq<string>)
    ensures result == Clipped(strings, maxTotalCharacters)
  {
    var used := 0;
    result := [];
    for i := 0 to |strings|
      invariant used == TotalLength(result)
      invariant result + Clipped(strings[i..], maxTotalCharacters - used) == Clipped(strings, maxTotalCharacters)
    {
      var str := strings[i];
      assert strings[i..][1..] == strings[i + 1..];
      if used + |str| <= maxTotalCharacters {
        TotalLengthAppend(result, [str]);
        result := result + [str];
        used := used + |str|;
      } else {
        var remaining := maxTotalCharacters - used;
        if remaining > 0 {
          TotalLengthAppend(result, [str[..remaining]]);
          result := result + [str[..remaining]];
          used := used + remaining;
        }
        return;
      }
    }
  }

  /** With a non-negative budget, the clipped lines hold exactly min(budget, total) characters. */
  lemma {:induction false} ClippedLength(lines: seq<string>, room: int)
    requires 0 <= room
    ensures TotalLength(Clipped(lines, room)) == if room <= TotalLength(lines) then room else TotalLength(lines)
  {
    if lines != [] {
      if |lines[0]| <= room {
        ClippedLength(lines[1..], room - |lines[0]|);
        TotalLengthAppend([lines[0]], Clipped(lines[1..], room - |lines[0]|));
      } else if room > 0 {
        assert TotalLength([lines[0][..room]]) == room;
      }
    }
  }

  /** So the clipped lines never exceed a non-negative budget. */
  lemma ClippedWithinBudget(lines: seq<string>, room: int)
    requires 0 <= room
    ensures TotalLength(Clipped(lines, room)) <= room
  {
    ClippedLength(lines, room);
  }

  /** The clipped text, joined, is the start of the input text, joined. */
  lemma {:induction false} ClippedIsPrefix(lines: seq<string>, room: int)
    ensures Joined(Clipped(lines, room)) <= Joined(lines)
  {
    if lines != [] {
      if |lines[0]| <= room {
        ClippedIsPrefix(lines[1..], room - |lines[0]|);
        var rest := Clipped(lines[1..], room - |lines[0]|);
        assert ([lines[0]] + rest)[1..] == rest;
      } else if room > 0 {
        assert [lines[0][..room]][1..] == [];
      }
    }
  }

  /**
   * Every kept line but the last is the input line at the same place; the
   * last kept line is the start of the input line at its place.
   */
  lemma {:induction false} ClippedShape(lines: seq<string>, room: int)
    ensures var r := Clipped(lines, room);
      (forall i :: 0 <= i < |r| - 1 ==> r[i] == lines[i]) &&
      (r != [] ==> r[|r| - 1] <= lines[|r| - 1])
  {
    if lines != [] && |lines[0]| <= room {
      ClippedShape(lines[1..], room - |lines[0]|);
    }
  }

  /** When everything fits, nothing is clipped. */
  lemma {:induction false} ClippedFits(lines: seq<string>, room: int)
    requires TotalLength(lines) <= room
    ensures Clipped(lines, room) == lines
  {
    if lines != [] {
      ClippedFits(lines[1..], room - |lines[0]|);
      assert [lines[0]] + lines[1..] == lines;
    }
  }

  /** The status bar body never shows more than its budget of characters. */
  lemma StatusBodyWithinBudget(body: seq<string>)
    ensures TotalLength(Clipped(body, StatusBudget)) <= StatusBudget
    ensures Joined(Clipped(body, StatusBudget)) <= Joined(body)
  {
    ClippedWithinBudget(body, StatusBudget);
    ClippedIsPrefix(body, StatusBudget);
  }
}
