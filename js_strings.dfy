/** The few pieces of JavaScript string and array semantics the colorway
    picker relies on: `String.prototype.split` with a one-character
    separator, its inverse `Array.prototype.join`, out-of-range array
    indexing and the stringification done by a template literal. */
module JsStrings {
  import opened Wrappers

  /** `s.split(sep)` for a separator of one character: the pieces of `s`
      between occurrences of `sep`, in order.  Like JavaScript, the empty
      string splits into one empty piece and adjacent or trailing
      separators give empty pieces. */
  function Split(s: string, sep: char): (parts: seq<string>)
    ensures |parts| >= 1
    ensures forall i :: 0 <= i < |parts| ==> sep !in parts[i]
    // the first piece runs from the start of `s` up to its first separator
    ensures parts[0] <= s
    ensures |parts[0]| == |s| || s[|parts[0]|] == sep
    decreases |s|
  {
    if |s| == 0 then
      [""]
    else if s[0] == sep then
      [""] + Split(s[1..], sep)
    else
      var rest := Split(s[1..], sep);
      [[s[0]] + rest[0]] + rest[1..]
  }

  /** `parts.join(sep)`: the pieces with one `sep` between neighbours. */
  function Join(parts: seq<string>, sep: char): (s: string)
    ensures |parts| == 1 ==> s == parts[0]
    ensures |parts| >= 1 ==> parts[0] <= s
  {
    if |parts| == 0 then ""
    else if |parts| == 1 then parts[0]
    else parts[0] + [sep] + Join(parts[1..], sep)
  }

  /** Joining the pieces of a split gives back the original string. */
  lemma {:induction false} JoinSplit(s: string, sep: char)
    ensures Join(Split(s, sep), sep) == s
    decreases |s|
  {
    if |s| == 0 {
    } else if s[0] == sep {
      JoinSplit(s[1..], sep);
      assert Split(s, sep)[1..] == Split(s[1..], sep);
    } else {
      var rest := Split(s[1..], sep);
      JoinSplit(s[1..], sep);
      var parts := Split(s, sep);
      assert parts[1..] == rest[1..];
      if |rest| > 1 {
        calc {
          Join(parts, sep);
          parts[0] + [sep] + Join(rest[1..], sep);
          [s[0]] + (rest[0] + [sep] + Join(rest[1..], sep));
          [s[0]] + Join(rest, sep);
          [s[0]] + s[1..];
          s;
        }
      }
    }
  }

  /** A string without the separator splits into itself alone. */
  lemma {:induction false} SplitWithoutSeparator(a: string, sep: char)
    requires sep !in a
    ensures Split(a, sep) == [a]
    decreases |a|
  {
    if |a| > 0 {
      SplitWithoutSeparator(a[1..], sep);
      assert [a[0]] + a[1..] == a;
    }
  }

  /** A separator-free piece followed by the separator is split off as the
      first piece, and the remainder is split on its own. */
  lemma {:induction false} SplitAfterPiece(a: string, sep: char, t: string)
    requires sep !in a
    ensures Split(a + [sep] + t, sep) == [a] + Split(t, sep)
    decreases |a|
  {
    var s := a + [sep] + t;
    if |a| == 0 {
      assert s[0] == sep && s[1..] == t;
    } else {
      assert s[0] == a[0] && s[1..] == a[1..] + [sep] + t;
      SplitAfterPiece(a[1..], sep, t);
      assert [a[0]] + a[1..] == a;
    }
  }

  /** Splitting the join of separator-free pieces gives back the pieces. */
  lemma {:induction false} SplitJoin(parts: seq<string>, sep: char)
    requires |parts| >= 1
    requires forall i :: 0 <= i < |parts| ==> sep !in parts[i]
    ensures Split(Join(parts, sep), sep) == parts
    decreases |parts|
  {
    if |parts| == 1 {
      SplitWithoutSeparator(parts[0], sep);
    } else {
      SplitJoin(parts[1..], sep);
      SplitAfterPiece(parts[0], sep, Join(parts[1..], sep));
      assert [parts[0]] + parts[1..] == parts;
    }
  }

  /** The first piece of a split is exactly the longest prefix free of the
      separator: a prefix `p` is the first piece if and only if it holds no
      separator and either is all of `s` or is followed by a separator. */
  lemma FirstPieceIsLongestFreePrefix(s: string, sep: char, p: string)
    ensures Split(s, sep)[0] == p <==>
            p <= s && sep !in p && (|p| == |s| || s[|p|] == sep)
  {
  }

  /** `arr[i]` in JavaScript: the element when `i` is a valid index,
      `undefined` otherwise (negative or too large). */
  function ElementAt<T>(arr: seq<T>, i: int): (r: Option<T>)
    ensures r.Some? <==> 0 <= i < |arr|
    ensures r.Some? ==> r.value == arr[i] && r.value in arr
  {
    if 0 <= i < |arr| then Some(arr[i]) else None
  }

  /** How a template literal `${v}` renders a possibly absent string:
      `undefined` is rendered as the text "undefined". */
  function TemplateString(v: Option<string>): (s: string)
    ensures v.Some? ==> s == v.value
    ensures v.None? ==> s == "undefined"
  {
    match v
    case Some(text) => text
    case None => "undefined"
  }
}
