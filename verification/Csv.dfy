/** Reading one line of a resident list (`parseCsvLine` in `ResidentImportPreview.tsx`). */
module Csv {
  import opened Sorting

  // ----- trim -----

  /** The characters `String.prototype.trim` strips: ECMAScript white space and line terminators. */
  predicate Strips(c: char) {
    var n := c as int;
    || 0x9 <= n <= 0xD || n == 0x20 || n == 0xA0 || n == 0x1680 || 0x2000 <= n <= 0x200A
    || n == 0x2028 || n == 0x2029 || n == 0x202F || n == 0x205F || n == 0x3000 || n == 0xFEFF
  }

  function TrimEnd(s: string): string {
    if s != [] && Strips(Last(s)) then TrimEnd(Init(s)) else s
  }

  function TrimStart(s: string): string {
    if s != [] && Strips(s[0]) then TrimStart(s[1..]) else s
  }

  function Trim(s: string): string {
    TrimEnd(TrimStart(s))
  }

  /** Nothing to strip at either end. */
  predicate Trimmed(s: string) {
    s != [] ==> !Strips(s[0]) && !Strips(Last(s))
  }

  lemma {:induction false} TrimEndKeeps(s: string)
    ensures TrimEnd(s) <= s
    ensures TrimEnd(s) == s <==> (s != [] ==> !Strips(Last(s)))
    ensures TrimEnd(s) != [] ==> !Strips(Last(TrimEnd(s)))
  {
    if s != [] && Strips(Last(s)) {
      TrimEndKeeps(Init(s));
    }
  }

  lemma {:induction false} TrimStartKeeps(s: string)
    ensures |TrimStart(s)| <= |s|
    ensures TrimStart(s) == s <==> (s != [] ==> !Strips(s[0]))
    ensures TrimStart(s) != [] ==> !Strips(TrimStart(s)[0])
  {
    if s != [] && Strips(s[0]) {
      TrimStartKeeps(s[1..]);
    }
  }

  /** Trimming leaves a field alone exactly when there is nothing to strip at either end. */
  lemma TrimFixes(s: string)
    ensures Trim(s) == s <==> Trimmed(s)
    ensures Trimmed(Trim(s))
  {
    TrimStartKeeps(s);
    TrimEndKeeps(TrimStart(s));
    if Trim(s) != [] {
      assert Trim(s)[0] == TrimStart(s)[0];
    }
  }

  /** Which characters those are, one by one. */
  lemma StrippedCharacters(c: char)
    ensures Strips(c) <==>
              c as int in {9, 10, 11, 12, 13, 32, 160, 5760, 8192, 8193, 8194, 8195, 8196, 8197, 8198, 8199, 8200, 8201,
                           8202, 8232, 8233, 8239, 8287, 12288, 65279}
  {
  }

  /** Trimming strips white space from both ends, and nothing else. */
  lemma TrimStripsEnds(s: string) returns (front: string, back: string)
    ensures s == front + Trim(s) + back
    ensures forall i :: 0 <= i < |front| ==> Strips(front[i])
    ensures forall i :: 0 <= i < |back| ==> Strips(back[i])
  {
    front := StartStripped(s);
    back := EndStripped(TrimStart(s));
    assert front + (Trim(s) + back) == front + Trim(s) + back;
  }

  lemma {:induction false} StartIgnored(front: string, s: string)
    requires forall i :: 0 <= i < |front| ==> Strips(front[i])
    ensures TrimStart(front + s) == TrimStart(s)
  {
    if front != [] {
      StartIgnored(front[1..], s);
      assert (front + s)[1..] == front[1..] + s;
    } else {
      assert front + s == s;
    }
  }

  lemma {:induction false} EndIgnored(s: string, back: string)
    requires forall i :: 0 <= i < |back| ==> Strips(back[i])
    ensures TrimEnd(s + back) == TrimEnd(s)
  {
    if back != [] {
      EndIgnored(s, Init(back));
      assert Init(s + back) == s + Init(back);
    } else {
      assert s + back == s;
    }
  }

  /** Nor does white space at the ends matter. */
  lemma TrimIgnoresEnds(front: string, s: string, back: string)
    requires forall i :: 0 <= i < |front| ==> Strips(front[i])
    requires forall i :: 0 <= i < |back| ==> Strips(back[i])
    requires Trimmed(s)
    ensures Trim(front + s + back) == s
  {
    assert front + s + back == front + (s + back);
    StartIgnored(front, s + back);
    if s == [] {
      assert s + back == back + "" && back + "" == back;
      StartIgnored(back, "");
    } else {
      assert (s + back)[0] == s[0];
      TrimStartKeeps(s + back);
      EndIgnored(s, back);
      TrimEndKeeps(s);
    }
  }

  lemma {:induction false} StartStripped(s: string) returns (front: string)
    ensures s == front + TrimStart(s) && forall i :: 0 <= i < |front| ==> Strips(front[i])
  {
    front := "";
    if s != [] && Strips(s[0]) {
      var more := StartStripped(s[1..]);
      front := [s[0]] + more;
      assert s == [s[0]] + s[1..];
      assert front + TrimStart(s) == [s[0]] + (more + TrimStart(s[1..]));
    }
  }

  lemma {:induction false} EndStripped(s: string) returns (back: string)
    ensures s == TrimEnd(s) + back && forall i :: 0 <= i < |back| ==> Strips(back[i])
  {
    back := "";
    if s != [] && Strips(Last(s)) {
      var more := EndStripped(Init(s));
      back := more + [Last(s)];
      SplitLast(s);
      assert TrimEnd(s) + back == (TrimEnd(Init(s)) + more) + [Last(s)];
    }
  }

  // ----- the parser -----

  /** The loop's variables: the values so far, the current one, and whether a quote is open. */
  datatype Scan = Scan(values: seq<string>, value: string, quoted: bool)

  const QUOTE := '"'
  const COMMA := ','

  /** Scans `line` from `index` on. */
  function ScanFrom(line: string, index: nat, s: Scan): Scan
    decreases |line| - index
  {
    if index >= |line| then s
    else if line[index] == QUOTE then
      if s.quoted && index + 1 < |line| && line[index + 1] == QUOTE
      then ScanFrom(line, index + 2, s.(value := s.value + [QUOTE]))
      else ScanFrom(line, index + 1, s.(quoted := !s.quoted))
    else if line[index] == COMMA && !s.quoted then
      ScanFrom(line, index + 1, Scan(s.values + [Trim(s.value)], "", s.quoted))
    else
      ScanFrom(line, index + 1, s.(value := s.value + [line[index]]))
  }

  function Parse(line: string): seq<string> {
    var s := ScanFrom(line, 0, Scan([], "", false));
    s.values + [Trim(s.value)]
  }

  method ParseCsvLine(line: string) returns (values: seq<string>)
    ensures values == Parse(line)
  {
    values := [];
    var value, quoted, index := "", false, 0;
    while index < |line|
      invariant ScanFrom(line, index, Scan(values, value, quoted)) == ScanFrom(line, 0, Scan([], "", false))
    {
      var character := line[index];
      if character == QUOTE {
        if quoted && index + 1 < |line| && line[index + 1] == QUOTE {
          value := value + [QUOTE];
          index := index + 1;
        } else {
          quoted := !quoted;
        }
      } else if character == COMMA && !quoted {
        values := values + [Trim(value)];
        value := "";
      } else {
        value := value + [character];
      }
      index := index + 1;
    }
    values := values + [Trim(value)];
  }

  // ----- writing a line as RFC 4180 has it -----

  /** Section 2, rule 7: a double quote inside a quoted field is written twice. */
  function Escaped(c: char): string {
    if c == QUOTE then [QUOTE, QUOTE] else [c]
  }

  function Escape(field: string): string {
    if field == [] then [] else Escape(Init(field)) + Escaped(Last(field))
  }

  /** A field and whether to enclose it in quotes. Rule 6: one with a quote or comma in it must be. */
  datatype Field = Field(text: string, enclosed: bool)

  predicate Writable(f: Field) {
    f.enclosed || (QUOTE !in f.text && COMMA !in f.text)
  }

  /** Rule 5: a field may or may not be enclosed in double quotes. */
  function WriteField(f: Field): string {
    if f.enclosed then [QUOTE] + Escape(f.text) + [QUOTE] else f.text
  }

  function WriteLine(fields: seq<Field>): string
    requires fields != []
  {
    if |fields| == 1 then WriteField(fields[0]) else WriteLine(Init(fields)) + [COMMA] + WriteField(Last(fields))
  }

  function Trims(fields: seq<Field>): (values: seq<string>)
    ensures |values| == |fields| && forall i :: 0 <= i < |fields| ==> values[i] == Trim(fields[i].text)
  {
    seq(|fields|, i requires 0 <= i < |fields| => Trim(fields[i].text))
  }

  function Texts(fields: seq<Field>): (values: seq<string>)
    ensures |values| == |fields| && forall i :: 0 <= i < |fields| ==> values[i] == fields[i].text
  {
    seq(|fields|, i requires 0 <= i < |fields| => fields[i].text)
  }

  // ----- the round trip -----

  /** `text` stands in `line` at `index`. */
  predicate At(line: string, index: nat, text: string) {
    index + |text| <= |line| && line[index..index + |text|] == text
  }

  lemma AtParts(line: string, index: nat, a: string, b: string)
    requires At(line, index, a + b)
    ensures At(line, index, a) && At(line, index + |a|, b)
  {
    var whole := line[index..index + |a + b|];
    assert whole[..|a|] == a && whole[|a|..] == b;
    assert line[index..index + |a|] == whole[..|a|];
    assert line[index + |a|..index + |a| + |b|] == whole[|a|..];
  }

  lemma AtChar(line: string, index: nat, c: char)
    requires At(line, index, [c])
    ensures index < |line| && line[index] == c
  {
    assert line[index..index + 1][0] == c;
  }

  /** Inside quotes, two quotes are read as one and any other character as itself. */
  lemma ScanQuoted(line: string, index: nat, c: char, s: Scan)
    requires At(line, index, Escaped(c)) && s.quoted
    ensures ScanFrom(line, index, s) == ScanFrom(line, index + |Escaped(c)|, Plus(s, [c]))
  {
    if c == QUOTE {
      assert Escaped(c) == [QUOTE] + [QUOTE];
      AtParts(line, index, [QUOTE], [QUOTE]);
      AtChar(line, index, QUOTE);
      AtChar(line, index + 1, QUOTE);
    } else {
      AtChar(line, index, c);
    }
  }

  lemma {:induction false} EscapeParts(line: string, index: nat, text: string)
    requires text != [] && At(line, index, Escape(text))
    ensures At(line, index, Escape(Init(text))) && At(line, index + |Escape(Init(text))|, Escaped(Last(text)))
    ensures |Escape(text)| == |Escape(Init(text))| + |Escaped(Last(text))|
  {
    var whole, front, last := Escape(text), Escape(Init(text)), Escaped(Last(text));
    assert whole == front + last by {
      EscapeLast(text);
    }
    AtHalves(line, index, whole, front, last);
  }

  lemma AtHalves(line: string, index: nat, whole: string, a: string, b: string)
    requires At(line, index, whole) && whole == a + b
    ensures At(line, index, a) && At(line, index + |a|, b) && |whole| == |a| + |b|
  {
    AtParts(line, index, a, b);
  }

  lemma {:induction false} EscapeLast(text: string)
    requires text != []
    ensures Escape(text) == Escape(Init(text)) + Escaped(Last(text))
  {
  }

  /** The variables once `text` has been added to the current value. */
  function Plus(s: Scan, text: string): Scan {
    s.(value := s.value + text)
  }

  lemma PlusLast(s: Scan, text: string)
    requires text != []
    ensures Plus(Plus(s, Init(text)), [Last(text)]) == Plus(s, text)
  {
    SplitLast(text);
    assert s.value + Init(text) + [Last(text)] == s.value + text;
  }

  lemma PlusNothing(s: Scan)
    ensures Plus(s, []) == s
  {
    assert s.value + [] == s.value;
  }

  /** The last character of an escaped text, the ones before it read. */
  lemma ScanEscapedLast(line: string, index: nat, text: string, s: Scan)
    requires text != [] && At(line, index, Escape(text)) && s.quoted
    ensures ScanFrom(line, index + |Escape(Init(text))|, Plus(s, Init(text))) ==
              ScanFrom(line, index + |Escape(text)|, Plus(s, text))
  {
    EscapeParts(line, index, text);
    ScanQuoted(line, index + |Escape(Init(text))|, Last(text), Plus(s, Init(text)));
    PlusLast(s, text);
  }

  /** Inside quotes, an escaped text is read back as it was. */
  lemma {:induction false} ScanEscaped(line: string, index: nat, text: string, s: Scan)
    requires At(line, index, Escape(text)) && s.quoted
    ensures ScanFrom(line, index, s) == ScanFrom(line, index + |Escape(text)|, Plus(s, text))
  {
    if text == [] {
      PlusNothing(s);
    } else {
      EscapeParts(line, index, text);
      ScanEscaped(line, index, Init(text), s);
      ScanEscapedLast(line, index, text, s);
    }
  }

  lemma BareParts(line: string, index: nat, text: string)
    requires text != [] && At(line, index, text)
    ensures At(line, index, Init(text)) && At(line, index + |Init(text)|, [Last(text)])
  {
    SplitLast(text);
    AtParts(line, index, Init(text), [Last(text)]);
  }

  /** Outside quotes, a text without quotes or commas is read as it is. */
  lemma {:induction false} ScanBare(line: string, index: nat, text: string, s: Scan)
    requires At(line, index, text) && !s.quoted && QUOTE !in text && COMMA !in text
    ensures ScanFrom(line, index, s) == ScanFrom(line, index + |text|, Plus(s, text))
  {
    if text == [] {
      PlusNothing(s);
    } else {
      BareParts(line, index, text);
      ScanBare(line, index, Init(text), s);
      AtChar(line, index + |Init(text)|, Last(text));
      PlusLast(s, text);
    }
  }

  lemma EnclosedParts(line: string, index: nat, text: string)
    requires At(line, index, [QUOTE] + Escape(text) + [QUOTE])
    ensures At(line, index, [QUOTE]) && At(line, index + 1, Escape(text)) && At(line, index + 1 + |Escape(text)|, [QUOTE])
  {
    AtParts(line, index, [QUOTE] + Escape(text), [QUOTE]);
    AtParts(line, index, [QUOTE], Escape(text));
  }

  /** A quote where none is open opens one. */
  lemma ScanOpening(line: string, index: nat, s: Scan)
    requires At(line, index, [QUOTE]) && !s.quoted
    ensures ScanFrom(line, index, s) == ScanFrom(line, index + 1, s.(quoted := true))
  {
    AtChar(line, index, QUOTE);
  }

  /** A quote that no other follows closes the open one. */
  lemma ScanClosing(line: string, index: nat, s: Scan)
    requires At(line, index, [QUOTE]) && s.quoted && (index + 1 < |line| ==> line[index + 1] != QUOTE)
    ensures ScanFrom(line, index, s) == ScanFrom(line, index + 1, s.(quoted := false))
  {
    AtChar(line, index, QUOTE);
  }

  /** A written field is read back as its text, unless a quote follows its closing quote. */
  lemma ScanField(line: string, index: nat, f: Field, s: Scan)
    requires At(line, index, WriteField(f)) && Writable(f) && !s.quoted
    requires var end := index + |WriteField(f)|; end < |line| ==> line[end] != QUOTE
    ensures ScanFrom(line, index, s) == ScanFrom(line, index + |WriteField(f)|, Plus(s, f.text))
  {
    if f.enclosed {
      EnclosedParts(line, index, f.text);
      ScanOpening(line, index, s);
      ScanEscaped(line, index + 1, f.text, s.(quoted := true));
      ScanClosing(line, index + 1 + |Escape(f.text)|, Plus(s.(quoted := true), f.text));
    } else {
      ScanBare(line, index, f.text, s);
    }
  }

  /** A comma outside quotes ends the value, trimmed. */
  lemma ScanComma(line: string, index: nat, s: Scan)
    requires At(line, index, [COMMA]) && !s.quoted
    ensures ScanFrom(line, index, s) == ScanFrom(line, index + 1, Scan(s.values + [Trim(s.value)], "", false))
  {
    AtChar(line, index, COMMA);
  }

  lemma TrimsSnoc(fields: seq<Field>)
    requires fields != []
    ensures Trims(Init(fields)) + [Trim(Last(fields).text)] == Trims(fields)
  {
  }

  lemma ScanFirst(line: string, f: Field)
    requires Writable(f) && At(line, 0, WriteField(f))
    requires var end := |WriteField(f)|; end < |line| ==> line[end] == COMMA
    ensures ScanFrom(line, 0, Scan([], "", false)) == ScanFrom(line, |WriteField(f)|, Scan([], f.text, false))
  {
    ScanField(line, 0, f, Scan([], "", false));
    assert "" + f.text == f.text;
  }

  /** A comma and a field, after the fields before them. */
  lemma ScanNext(line: string, index: nat, before: seq<Field>, f: Field)
    requires before != [] && Writable(f) && At(line, index, [COMMA]) && At(line, index + 1, WriteField(f))
    requires var end := index + 1 + |WriteField(f)|; end < |line| ==> line[end] == COMMA
    ensures ScanFrom(line, index, Scan(Trims(Init(before)), Last(before).text, false)) ==
              ScanFrom(line, index + 1 + |WriteField(f)|, Scan(Trims(before), f.text, false))
  {
    ScanComma(line, index, Scan(Trims(Init(before)), Last(before).text, false));
    TrimsSnoc(before);
    ScanField(line, index + 1, f, Scan(Trims(before), "", false));
    assert "" + f.text == f.text;
  }

  lemma LineParts(line: string, fields: seq<Field>)
    requires |fields| > 1 && At(line, 0, WriteLine(fields))
    ensures var head := WriteLine(Init(fields));
            && At(line, 0, head) && At(line, |head|, [COMMA]) && At(line, |head| + 1, WriteField(Last(fields)))
            && |WriteLine(fields)| == |head| + 1 + |WriteField(Last(fields))|
  {
    var head := WriteLine(Init(fields));
    AtParts(line, 0, head + [COMMA], WriteField(Last(fields)));
    AtParts(line, 0, head, [COMMA]);
  }

  /** Reading a written line up to its last field leaves the earlier ones trimmed and the last as it is. */
  lemma {:induction false} ScanLine(line: string, fields: seq<Field>)
    requires fields != [] && forall f :: f in fields ==> Writable(f)
    requires At(line, 0, WriteLine(fields))
    requires var end := |WriteLine(fields)|; end < |line| ==> line[end] == COMMA
    ensures ScanFrom(line, 0, Scan([], "", false)) ==
              ScanFrom(line, |WriteLine(fields)|, Scan(Trims(Init(fields)), Last(fields).text, false))
  {
    assert Last(fields) in fields;
    if |fields| == 1 {
      ScanFirst(line, Last(fields));
      assert Trims(Init(fields)) == [];
    } else {
      var head := WriteLine(Init(fields));
      LineParts(line, fields);
      AtChar(line, |head|, COMMA);
      assert forall f :: f in Init(fields) ==> f in fields;
      ScanLine(line, Init(fields));
      ScanNext(line, |head|, Init(fields), Last(fields));
    }
  }

  /** Parsing a written line returns every field, trimmed. */
  lemma ParseWritten(fields: seq<Field>)
    requires fields != [] && forall f :: f in fields ==> Writable(f)
    ensures Parse(WriteLine(fields)) == Trims(fields)
  {
    var line := WriteLine(fields);
    assert line[0..|line|] == line;
    ScanLine(line, fields);
    assert Trims(Init(fields)) + [Trim(Last(fields).text)] == Trims(fields);
  }

  /** So it returns exactly the fields iff none has anything to strip at its ends. */
  lemma RoundTrip(fields: seq<Field>)
    requires fields != [] && forall f :: f in fields ==> Writable(f)
    ensures Parse(WriteLine(fields)) == Texts(fields) <==> forall f :: f in fields ==> Trimmed(f.text)
  {
    ParseWritten(fields);
    forall i | 0 <= i < |fields| ensures Trims(fields)[i] == Texts(fields)[i] <==> Trimmed(fields[i].text) {
      TrimFixes(fields[i].text);
    }
    if forall f :: f in fields ==> Trimmed(f.text) {
      forall i | 0 <= i < |fields| ensures Trims(fields)[i] == Texts(fields)[i] {
        assert fields[i] in fields;
      }
    } else {
      var f :| f in fields && !Trimmed(f.text);
      var i :| 0 <= i < |fields| && fields[i] == f;
      assert Trims(fields)[i] != Texts(fields)[i];
    }
  }

  // ----- any line, without the state -----

  function QuotesBefore(line: string, i: nat): nat
    requires i <= |line|
  {
    if i == 0 then 0 else QuotesBefore(line, i - 1) + if line[i - 1] == QUOTE then 1 else 0
  }

  /** A comma ends a value when an even number of quotes stand before it. */
  predicate Separates(line: string, i: nat)
    requires i < |line|
  {
    line[i] == COMMA && QuotesBefore(line, i) % 2 == 0
  }

  /** A quote is kept when an odd number of quotes stand before it and another follows at once. */
  predicate KeptQuote(line: string, i: nat)
    requires i < |line|
  {
    line[i] == QUOTE && QuotesBefore(line, i) % 2 == 1 && i + 1 < |line| && line[i + 1] == QUOTE
  }

  /** The values ended, and the value begun. */
  datatype Reading = Reading(values: seq<string>, value: string)

  /** What the first `n` characters give. */
  function ReadTo(line: string, n: nat): Reading
    requires n <= |line|
  {
    if n == 0 then Reading([], "")
    else
      var before := ReadTo(line, n - 1);
      if Separates(line, n - 1) then Reading(before.values + [Trim(before.value)], "")
      else if line[n - 1] != QUOTE || KeptQuote(line, n - 1) then before.(value := before.value + [line[n - 1]])
      else before
  }

  /** The loop's variables at `n`, unless it has just skipped the second of two quotes. */
  function ScanAt(line: string, n: nat): Scan
    requires n <= |line|
  {
    Scan(ReadTo(line, n).values, ReadTo(line, n).value, QuotesBefore(line, n) % 2 == 1)
  }

  lemma PairRead(line: string, n: nat)
    requires n < |line| && KeptQuote(line, n)
    ensures ScanAt(line, n + 2) == ScanAt(line, n).(value := ScanAt(line, n).value + [QUOTE])
  {
    assert QuotesBefore(line, n + 1) == QuotesBefore(line, n) + 1;
    assert !Separates(line, n) && !Separates(line, n + 1) && !KeptQuote(line, n + 1);
    assert ReadTo(line, n + 2) == ReadTo(line, n + 1);
  }

  lemma OtherRead(line: string, n: nat)
    requires n < |line| && !KeptQuote(line, n)
    ensures var s := ScanAt(line, n);
            ScanAt(line, n + 1) ==
              if line[n] == QUOTE then s.(quoted := !s.quoted)
              else if line[n] == COMMA && !s.quoted then Scan(s.values + [Trim(s.value)], "", s.quoted)
              else s.(value := s.value + [line[n]])
  {
  }

  lemma {:induction false} ScanByCounting(line: string, n: nat)
    requires n <= |line|
    ensures ScanFrom(line, n, ScanAt(line, n)) == ScanAt(line, |line|)
    decreases |line| - n
  {
    if n < |line| {
      if KeptQuote(line, n) {
        PairRead(line, n);
        ScanByCounting(line, n + 2);
      } else {
        OtherRead(line, n);
        ScanByCounting(line, n + 1);
      }
    }
  }

  /**
   Whatever the line, well formed or not, it is split at the commas with an even number of quotes before
   them; all other characters are kept but the quotes that are not the first of a pair inside quotes; and
   each value is trimmed.
   */
  lemma ParseByCounting(line: string)
    ensures Parse(line) == ReadTo(line, |line|).values + [Trim(ReadTo(line, |line|).value)]
  {
    assert ScanAt(line, 0) == Scan([], "", false);
    ScanByCounting(line, 0);
  }

  lemma {:induction false} ValuesEnded(line: string, n: nat)
    requires n <= |line|
    ensures |ReadTo(line, n).values| == |set i: nat | i < n && Separates(line, i)|
  {
    if n > 0 {
      ValuesEnded(line, n - 1);
      var before, after := set i: nat | i < n - 1 && Separates(line, i), set i: nat | i < n && Separates(line, i);
      OneMore(before, after, n - 1, Separates(line, n - 1));
    }
  }

  /** So there is one value more than separating commas. */
  lemma ValuesCounted(line: string)
    ensures |Parse(line)| == 1 + |set i: nat | i < |line| && Separates(line, i)|
  {
    ParseByCounting(line);
    ValuesEnded(line, |line|);
  }
}
