/** The editor: adds and removes an object's member in the document's text. */
module Json5Editor {
  import opened Strings
  import opened Json5Text
  import opened Json5Tree
  import opened Json5RoundTrip
  import opened Json5Lines
  import opened Json5Edit
  import opened Json5Parser
  import opened Json5Spans
  import opened Json5Sites
  import opened Json5Insertion

  /** The object with inside f stands behind `before` and in front of `more`. */
  ghost predicate Located(raw: string, node: Node, before: string, f: Fields, more: string) {
    && raw == (before + "{") + (FieldsText(f) + more)
    && node == NodeOf(Object(f), |before|)
    && WfFields(f)
  }

  lemma ObjectIs(raw: string, node: Node, before: string, f: Fields, more: string)
    requires Located(raw, node, before, f, more)
    ensures node.start == |before| && node.fields == Members(f, |before| + 1) && |node.fields| == |Entries(f)|
    ensures node.close == |before| + |FieldsText(f)| && |before| < node.close < |raw| && raw[|before|] == '{'
    ensures Stands(before + "{")
  {
    MembersCount(f, |before| + 1);
    FieldsEnd(f);
    hide FieldsText;
    hide Members;
    hide WfFields;
    assert ((before + "{") + (FieldsText(f) + more))[|before|] == '{';
  }

  /** The text without a member; `previous` is the comma before it, or negative. */
  method RemoveSpan(raw: string, target: Member, previous: int) returns (out: string)
    requires Spans(raw, target, previous)
    ensures out == RemovalText(raw, target, previous)
  {
    hide OwnLines;
    hide OwnEnd;
    hide AllSpace;
    hide Splice;
    var tokenEnd := if target.comma >= 0 then target.comma + 1 else target.value.end;
    var alone, lineStart, lineEnd := OwnLineSpan(raw, target.keyStart, tokenEnd);
    if alone {
      out := Splice(raw, lineStart, lineEnd, "");
      if target.comma < 0 && 0 <= previous < |out| { out := Splice(out, previous, previous + 1, ""); }
      return;
    }
    if target.comma < 0 && previous >= 0 && AllSpace(raw[previous + 1..target.keyStart]) {
      return Splice(raw, previous, target.value.end, "");
    }
    if target.comma >= 0 && previous >= 0 && AllSpace(raw[previous + 1..target.keyStart]) {
      return Splice(raw, previous + 1, target.comma + 1, "");
    }
    out := Splice(raw, target.keyStart, target.value.end, "");
    if target.comma >= 0 {
      var adjusted := target.comma - (target.value.end - target.keyStart);
      out := Splice(out, adjusted, adjusted + 1, "");
    } else if previous >= 0 {
      out := Splice(out, previous, previous + 1, "");
    }
  }

  /** Takes member `index` out of the object. */
  method RemoveMember(raw: string, node: Node, index: nat, ghost before: string, ghost f: Fields, ghost more: string)
    returns (out: string)
    requires Located(raw, node, before, f, more) && index < |node.fields|
    ensures index < |Entries(f)|
    ensures out == (before + "{") + (FieldsText(Removed(f, index)) + more)
  {
    hide *;
    ObjectIs(raw, node, before, f, more);
    WfOfLocated(raw, node, before, f, more);
    RemovalIsEdit(before + "{", f, more, index);
    PreviousIs(node.fields, index);
    out := RemoveSpan(raw, node.fields[index], if index > 0 then node.fields[index - 1].comma else -1);
  }

  lemma PreviousIs(members: seq<Member>, i: nat)
    requires i < |members|
    ensures PreviousComma(members, i) == if i > 0 then members[i - 1].comma else -1
  {
  }

  lemma WfOfLocated(raw: string, node: Node, before: string, f: Fields, more: string)
    requires Located(raw, node, before, f, more)
    ensures WfFields(f) && raw == (before + "{") + (FieldsText(f) + more) && |before + "{"| == |before| + 1
  {
  }

  /** The blanks before an offset, when nothing else stands before it on its line. */
  method LineIndent(raw: string, at: nat) returns (ok: bool, lineStart: nat, indent: string)
    requires at <= |raw|
    ensures ok <==> IndentedAt(raw, at)
    ensures lineStart == LineAt(raw, at) && indent == IndentAt(raw, at)
  {
    lineStart := LineStart(raw[..at]);
    indent := raw[lineStart..at];
    for i := 0 to |indent|
      invariant forall j :: 0 <= j < i ==> Blank(indent[j])
    {
      if indent[i] != ' ' && indent[i] != '\t' {
        assert indent[i] in indent;
        return false, lineStart, indent;
      }
    }
    ok := true;
  }

  predicate HasCrlf(s: string) {
    exists i :: 0 <= i < |s| - 1 && s[i] == '\r' && s[i + 1] == '\n'
  }

  /** The line break an object uses: the one it already contains, or a plain one. */
  function BreakOf(f: Fields): string {
    if HasCrlf(FieldsText(f)) then "\r\n" else "\n"
  }

  lemma BreakIsBreak(f: Fields)
    ensures LineBreak(BreakOf(f)) && AllSpace(BreakOf(f))
  {
  }

  lemma CrlfInside(before: string, text: string, more: string)
    requires text != "" && text[|text| - 1] == '}'
    ensures var raw := (before + "{") + (text + more);
            HasCrlf(raw[|before|..|before| + |text|]) <==> HasCrlf(text)
  {
    var raw := (before + "{") + (text + more);
    var inner := raw[|before|..|before| + |text|];
    assert inner[0] == '{' && forall i :: 0 < i < |inner| ==> inner[i] == text[i - 1];
    if HasCrlf(inner) {
      var i :| 0 <= i < |inner| - 1 && inner[i] == '\r' && inner[i + 1] == '\n';
      assert text[i - 1] == '\r' && text[i] == '\n';
    }
    if HasCrlf(text) {
      var i :| 0 <= i < |text| - 1 && text[i] == '\r' && text[i + 1] == '\n';
      assert inner[i + 1] == '\r' && inner[i + 2] == '\n';
    }
  }

  /** A closing brace on its own line makes the object span lines. */
  lemma OwnLineIsMultiline(raw: string, open: nat, close: nat)
    requires open < close <= |raw| && raw[open] == '{' && IndentedAt(raw, close)
    ensures exists i :: open <= i < close && Newline(raw[i])
  {
    var line := LineAt(raw, close);
    forall i | line <= i < close ensures Blank(raw[i]) {
      assert raw[i] == IndentAt(raw, close)[i - line];
      assert IndentAt(raw, close)[i - line] in IndentAt(raw, close);
    }
    assert Newline(raw[..close][line - 1]);
  }

  /** The text with a member added to an object that has none. */
  method InsertFirst(raw: string, nl: string, open: nat, close: nat, member: string) returns (out: string)
    requires open < close <= |raw| && raw[open] == '{'
    ensures out == FirstText(raw, nl, open, close, member)
  {
    FirstIs(raw, nl, open, close, member);
    hide *;
    var closeAlone, lineStart, closeIndent := LineIndent(raw, close);
    if closeAlone { OwnLineIsMultiline(raw, open, close); }
    var multiline := exists i :: open <= i < close && Newline(raw[i]);
    if multiline && closeAlone {
      out := Splice(raw, lineStart, lineStart, closeIndent + "  " + member + nl);
    } else {
      out := Splice(raw, close, close, (if NeedsGap(raw, open, close) then " " else "") + member);
    }
  }

  /** The text with a member added behind the last one. */
  method InsertNext(raw: string, nl: string, open: nat, close: nat, last: Member, member: string) returns (out: string)
    requires open < close && last.keyStart <= last.value.end <= close <= |raw| && raw[open] == '{'
    ensures out == NextText(raw, nl, close, last, member)
  {
    NextIs(raw, nl, close, last, member);
    hide *;
    var closeAlone, lineStart, closeIndent := LineIndent(raw, close);
    if closeAlone { OwnLineIsMultiline(raw, open, close); }
    var multiline := exists i :: open <= i < close && Newline(raw[i]);
    if multiline && closeAlone {
      var lineUp, _, existing := LineIndent(raw, last.keyStart);
      var indent := if lineUp then existing else closeIndent + "  ";
      if last.comma >= 0 {
        out := Splice(raw, lineStart, lineStart, indent + member + "," + nl);
      } else {
        out := Splice(raw, lineStart, lineStart, indent + member + "" + nl);
        out := Splice(out, last.value.end, last.value.end, ",");
      }
    } else if last.comma >= 0 {
      out := Splice(raw, close, close, " " + member + ",");
    } else {
      out := Splice(raw, close, close, ", " + member);
    }
  }

  /** Adds a member at the end of the object. */
  method InsertMember(raw: string, node: Node, key: string, value: string,
                      ghost before: string, ghost f: Fields, ghost more: string, ghost v: Tree)
    returns (out: string)
    requires Located(raw, node, before, f, more) && value == Text(v)
    ensures out == (before + "{") + (FieldsText(Inserted(f, key, v, BreakOf(f))) + more)
  {
    hide *;
    ObjectIs(raw, node, before, f, more);
    WfOfLocated(raw, node, before, f, more);
    BreakIs(before, f, more);
    EntriesNone(f);
    MemberTextIs(key, v);
    var member := key + (": " + value);
    var nl := if HasCrlf(raw[node.start..node.close]) then "\r\n" else "\n";
    if |node.fields| == 0 {
      EditFirst(before, f, more, key, v, nl);
      out := InsertFirst(raw, nl, node.start, node.close, member);
    } else {
      BraceStands(before);
      NextIsEdit(f, before + "{", more, key, v, nl);
      out := InsertNext(raw, nl, node.start, node.close, node.fields[|node.fields| - 1], member);
    }
  }

  lemma BreakIs(before: string, f: Fields, more: string)
    ensures var raw, close := (before + "{") + (FieldsText(f) + more), |before| + |FieldsText(f)|;
            && close <= |raw| && BreakOf(f) == if HasCrlf(raw[|before|..close]) then "\r\n" else "\n"
  {
    FieldsEnd(f);
    CrlfInside(before, FieldsText(f), more);
  }

  lemma MemberTextIs(key: string, v: Tree)
    ensures MemberText(key, v) == key + (": " + Text(v))
  {
  }

  lemma EditFirst(before: string, f: Fields, more: string, key: string, v: Tree, nl: string)
    requires f.NoField?
    ensures |FieldsText(f)| > 0
    ensures FirstText((before + "{") + (FieldsText(f) + more), nl, |before|, |before| + |FieldsText(f)|,
                      MemberText(key, v)) ==
            (before + "{") + (FieldsText(Inserted(f, key, v, nl)) + more)
  {
    BraceStands(before);
    EntriesNone(f);
    hide *;
    NoFieldText(f);
    FirstIsEdit(before + "{", f.trivia, more, key, v, nl);
    Assoc(f.trivia, "}", more);
  }

  lemma BraceStands(before: string)
    ensures Stands(before + "{")
  {
  }

  lemma EntriesNone(f: Fields)
    ensures |Entries(f)| == 0 <==> f.NoField?
    ensures f.NoField? ==> f == NoField(f.trivia)
  {
  }
}
