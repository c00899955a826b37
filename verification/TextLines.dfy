/** Splitting text at newlines, and how that interacts with reading it in pieces. */
module TextLines {

  /** `text.split('\n')`: always at least one piece */
  function Split(text: string): (lines: seq<string>)
    ensures lines != []
  {
    if text == "" then [""]
    else AddChar(Split(text[..|text| - 1]), text[|text| - 1])
  }

  /** One more character: a newline opens a line, anything else extends the open one */
  function AddChar(lines: seq<string>, c: char): (r: seq<string>)
    requires lines != []
    ensures r != []
  {
    if c == '\n' then lines + [""] else Init(lines) + [Last(lines) + [c]]
  }

  function Last(lines: seq<string>): string
    requires lines != []
  {
    lines[|lines| - 1]
  }

  function Init(lines: seq<string>): seq<string>
    requires lines != []
  {
    lines[..|lines| - 1]
  }

  lemma {:induction false} LastHasNoNewline(text: string)
    ensures '\n' !in Last(Split(text))
  {
    if text != "" {
      LastHasNoNewline(text[..|text| - 1]);
    }
  }

  lemma AddCharConcat(before: seq<string>, lines: seq<string>, c: char)
    requires lines != []
    ensures AddChar(before + lines, c) == before + AddChar(lines, c)
  {
    assert Init(before + lines) == before + Init(lines);
  }

  lemma SplitAppend(text: string, c: char)
    ensures Split(text + [c]) == AddChar(Split(text), c)
  {
    assert (text + [c])[..|text|] == text;
  }

  /** More text only touches the unfinished last line. */
  lemma {:induction false} SplitConcat(a: string, b: string)
    ensures Split(a + b) == Init(Split(a)) + Split(Last(Split(a)) + b)
  {
    var open := Last(Split(a));
    if b == "" {
      assert a + b == a && open + b == open;
      LastHasNoNewline(a);
      SplitLine(open);
    } else {
      var n := |b| - 1;
      SplitConcat(a, b[..n]);
      assert b == b[..n] + [b[n]];
      assert a + b == (a + b[..n]) + [b[n]];
      assert open + b == (open + b[..n]) + [b[n]];
      SplitAppend(a + b[..n], b[n]);
      SplitAppend(open + b[..n], b[n]);
      AddCharConcat(Init(Split(a)), Split(open + b[..n]), b[n]);
    }
  }

  lemma {:induction false} SplitLine(line: string)
    requires '\n' !in line
    ensures Split(line) == [line]
  {
    if line != "" {
      var n := |line| - 1;
      SplitLine(line[..n]);
      assert line == line[..n] + [line[n]];
      assert Init([line[..n]]) == [];
    }
  }
}
