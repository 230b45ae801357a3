/** `Label`: the class-name table of the examples, a vector of strings read line by line
    from a text file, with the decimal index standing in for a missing name. The file is
    given as its contents and whether it could be opened. */
module Label {

  /** The index at or after `pos` where the line starting at `pos` ends: the next
      newline, or the end of the text. */
  function LineEnd(s: string, pos: nat): (e: nat)
    requires pos <= |s|
    ensures pos <= e <= |s|
    ensures forall i :: pos <= i < e ==> s[i] != '\n'
    ensures e < |s| ==> s[e] == '\n'
    decreases |s| - pos
  {
    if pos == |s| || s[pos] == '\n' then pos else LineEnd(s, pos + 1)
  }

  /** The lines of `s` from `pos` on, without their newlines; the text after the last
      newline is the last line, empty when the text ends with a newline. */
  function Lines(s: string, pos: nat): seq<string>
    requires pos <= |s|
    decreases |s| - pos
  {
    var e := LineEnd(s, pos);
    if e == |s| then [s[pos..]] else [s[pos..e]] + Lines(s, e + 1)
  }

  /** The lines joined with newlines. */
  function Join(lines: seq<string>): string
  {
    if |lines| == 0 then []
    else if |lines| == 1 then lines[0]
    else lines[0] + "\n" + Join(lines[1..])
  }

  /** Splitting at the newlines and joining again gives the text back. */
  lemma {:induction false} JoinLines(s: string, pos: nat)
    requires pos <= |s|
    ensures |Lines(s, pos)| >= 1
    ensures Join(Lines(s, pos)) == s[pos..]
    decreases |s| - pos
  {
    var e := LineEnd(s, pos);
    if e < |s| {
      JoinLines(s, e + 1);
      var rest := Lines(s, e + 1);
      assert Lines(s, pos) == [s[pos..e]] + rest;
      assert Lines(s, pos)[1..] == rest;
      assert s[pos..] == s[pos..e] + "\n" + s[e + 1..];
    }
  }

  /** No line of `s` from `pos` on has a newline in it. */
  lemma {:induction false} LinesHaveNoNewline(s: string, pos: nat)
    requires pos <= |s|
    ensures forall l, i :: l in Lines(s, pos) && 0 <= i < |l| ==> l[i] != '\n'
    decreases |s| - pos
  {
    var e := LineEnd(s, pos);
    if e < |s| {
      LinesHaveNoNewline(s, e + 1);
    }
  }

  /** The non-empty strings of `lines`, in order. */
  function NonEmpty(lines: seq<string>): (r: seq<string>)
    ensures forall l :: l in r <==> l in lines && l != []
  {
    if |lines| == 0 then []
    else if lines[0] == [] then NonEmpty(lines[1..])
    else [lines[0]] + NonEmpty(lines[1..])
  }

  lemma {:induction false} NonEmptyAppend(a: seq<string>, b: seq<string>)
    ensures NonEmpty(a + b) == NonEmpty(a) + NonEmpty(b)
  {
    if |a| > 0 {
      assert (a + b)[1..] == a[1..] + b;
      NonEmptyAppend(a[1..], b);
    } else {
      assert a + b == b;
    }
  }

  /** What a successful `Load` stores: the non-empty lines of the text, in file order. */
  function Labels(s: string): seq<string>
  {
    NonEmpty(Lines(s, 0))
  }

  /** The text `getline(line, 128, '\n')` can read to its end: no line is longer than
      the 127 characters the buffer holds (a longer one sets the fail bit, after which
      the end of the file is never reached), and no NUL character, where `strlen` would
      cut the line short. */
  predicate Readable(s: string)
  {
    (forall i :: 0 <= i < |s| ==> s[i] != '\0')
      && forall l :: l in Lines(s, 0) ==> |l| <= 127
  }

  /** Each stored label is a non-empty line of the file, without newline, of at most 127
      characters; the labels are the lines of the file with the empty ones left out. */
  lemma LabelsAreLines(s: string)
    requires Readable(s)
    ensures forall l :: l in Labels(s) ==> l != [] && l in Lines(s, 0) && |l| <= 127
    ensures forall l, i :: l in Labels(s) && 0 <= i < |l| ==> l[i] != '\n'
    ensures Join(Lines(s, 0)) == s
  {
    LinesHaveNoNewline(s, 0);
    JoinLines(s, 0);
  }

  /** The decimal digits of `n`, as `std::to_string` writes them. */
  function Decimal(n: nat): (r: string)
    ensures |r| >= 1
    ensures forall i :: 0 <= i < |r| ==> '0' <= r[i] <= '9'
    ensures |r| > 1 ==> r[0] != '0'
  {
    if n < 10 then [Digit(n)] else Decimal(n / 10) + [Digit(n % 10)]
  }

  function Digit(d: nat): (c: char)
    requires d < 10
  {
    ['0', '1', '2', '3', '4', '5', '6', '7', '8', '9'][d]
  }

  lemma DigitValue(d: nat)
    requires d < 10
    ensures Digit(d) as int - '0' as int == d
  {
  }

  /** The number a string of decimal digits denotes. */
  function Value(s: string): nat
    requires forall i :: 0 <= i < |s| ==> '0' <= s[i] <= '9'
  {
    if |s| == 0 then 0 else 10 * Value(s[..|s| - 1]) + (s[|s| - 1] as int - '0' as int)
  }

  /** Appending a digit multiplies the value by ten and adds the digit. */
  lemma ValueSnoc(s: string, c: char)
    requires forall i :: 0 <= i < |s| ==> '0' <= s[i] <= '9'
    requires '0' <= c <= '9'
    ensures Value(s + [c]) == 10 * Value(s) + (c as int - '0' as int)
  {
    assert (s + [c])[..|s|] == s;
  }

  /** Reading the decimal text back gives the index. */
  lemma {:induction false} DecimalValue(n: nat)
    ensures Value(Decimal(n)) == n
  {
    DigitValue(n % 10);
    if n >= 10 {
      var p := Decimal(n / 10);
      DecimalValue(n / 10);
      ValueSnoc(p, Digit(n % 10));
    }
  }

  /** `class Label : public std::vector<std::string>`. */
  class Label {
    var labels: seq<string>

    /** `Label()`: an empty table. */
    constructor()
      ensures labels == []
    {
      labels := [];
    }

    /** `Label(filepath)`: an empty table, then `Load`. */
    constructor FromFile(isOpen: bool, contents: string)
      requires isOpen ==> Readable(contents)
      ensures labels == if isOpen then Labels(contents) else []
    {
      labels := [];
      new;
      Load(isOpen, contents);
    }

    /** `operator[](idx)`: the label at `idx`, or the decimal text of `idx` when the table
        is empty or holds no label there. */
    function Get(idx: nat): (r: string)
      reads this
      ensures idx < |labels| ==> r == labels[idx]
      ensures idx >= |labels| ==> r == Decimal(idx) && Value(r) == idx
    {
      DecimalValue(idx);
      if |labels| == 0 || idx >= |labels| then Decimal(idx) else labels[idx]
    }

    /** `Load(filepath)`: when the file cannot be opened nothing changes; otherwise the
        old labels are dropped and each non-empty line is appended, in file order. */
    method Load(isOpen: bool, contents: string)
      requires isOpen ==> Readable(contents)
      modifies this
      ensures !isOpen ==> labels == old(labels)
      ensures isOpen ==> labels == Labels(contents)
    {
      if !isOpen {
        return;
      }
      if |labels| != 0 {
        labels := [];
      }
      var pos := 0;
      var eof := false;
      while !eof
        invariant pos <= |contents|
        invariant Labels(contents) == labels + Unread(contents, pos, eof)
        decreases |contents| - pos, !eof
      {
        ghost var start := pos;
        var line;
        line, pos, eof := GetLine(contents, pos);
        ReadStep(contents, start, line, pos, eof, labels);
        if |line| > 0 {
          labels := labels + [line];
        }
      }
    }
  }

  /** The labels still to be read from `pos` on, none once the end of the file is
      reached. */
  function Unread(s: string, pos: nat, eof: bool): seq<string>
    requires pos <= |s|
  {
    if eof then [] else NonEmpty(Lines(s, pos))
  }

  /** Reading one line moves it, when it is not empty, from the unread labels to the
      end of the table `done`. */
  lemma ReadStep(s: string, pos: nat, line: string, next: nat, atEnd: bool, done: seq<string>)
    requires pos <= next <= |s|
    requires atEnd ==> Lines(s, pos) == [line]
    requires !atEnd ==> Lines(s, pos) == [line] + Lines(s, next)
    ensures Unread(s, pos, false) == (if |line| > 0 then [line] else []) + Unread(s, next, atEnd)
    ensures done + Unread(s, pos, false)
      == done + (if |line| > 0 then [line] else []) + Unread(s, next, atEnd)
  {
    if atEnd {
      assert NonEmpty([line]) == (if |line| > 0 then [line] else []) by {
        assert [line][1..] == [];
      }
    } else {
      NonEmptyAppend([line], Lines(s, next));
      assert [line][1..] == [];
    }
    AppendAssoc(done, if |line| > 0 then [line] else [], Unread(s, next, atEnd));
  }

  lemma AppendAssoc(a: seq<string>, b: seq<string>, c: seq<string>)
    ensures a + (b + c) == a + b + c
  {
  }

  /** `getline(line, 128, '\n')` from position `pos`: the characters up to the next
      newline, which is consumed, or up to the end of the text, which sets the end-of-file
      flag. */
  method GetLine(s: string, pos: nat) returns (line: string, next: nat, atEnd: bool)
    requires pos <= |s|
    ensures pos <= next <= |s|
    ensures atEnd ==> next == |s| && Lines(s, pos) == [line]
    ensures !atEnd ==> pos < next && Lines(s, pos) == [line] + Lines(s, next)
  {
    var e := pos;
    while e < |s| && s[e] != '\n'
      invariant pos <= e <= |s|
      invariant LineEnd(s, pos) == LineEnd(s, e)
    {
      e := e + 1;
    }
    line := s[pos..e];
    assert e == |s| ==> line == s[pos..];
    if e == |s| {
      next, atEnd := e, true;
    } else {
      next, atEnd := e + 1, false;
    }
  }
}
