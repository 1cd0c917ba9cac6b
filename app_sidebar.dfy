/** The labels of the task-history entries in the sidebar. */
module AppSidebar {
  import opened Wrappers
  import opened TextOps

  const DefaultMaxLength: int := 20

  /** `t.substring(0, n)`: a negative end counts as 0, one past the end as
      the end. */
  function Prefix(t: string, n: int): (r: string)
    ensures |r| <= |t| && r == t[..|r|]
    ensures 0 <= n <= |t| ==> |r| == n
  {
    if n <= 0 then "" else if n >= |t| then t else t[..n]
  }

  /** The label shortening as written: blank text gives nothing; otherwise the
      trimmed text, cut to `maxLength` characters with an ellipsis when the
      untrimmed text is longer than `maxLength`. */
  function TruncateText(text: string, maxLength: int): (r: string)
    ensures r == "" <==> AllWhitespace(text)
    ensures !AllWhitespace(text) && |text| <= maxLength ==> r == Trim(text)
    ensures |text| > maxLength && !AllWhitespace(text) ==> r == Prefix(Trim(text), maxLength) + "..."
    ensures |r| <= |text| + 3 && (maxLength >= 0 ==> |r| <= maxLength + 3)
  {
    TrimEmptyIffWhitespace(text);
    if Trim(text) == "" then ""
    else if |text| > maxLength then Prefix(Trim(text), maxLength) + "..."
    else Trim(text)
  }

  /** As written, text whose surrounding spaces push it past the limit gains
      an ellipsis although nothing of it is cut off. */
  lemma PaddedTextGainsEllipsis()
    ensures |Trim("  ab  ")| <= 5
    ensures TruncateText("  ab  ", 5) == "ab..."
  {
    TrimPadded();
    EllipsisWithoutCut("  ab  ", 5);
    AbEllipsis();
  }

  lemma AbEllipsis()
    ensures "ab" + "..." == "ab..."
  {
  }

  /** Non-blank text longer than the limit whose trimmed form fits gets the
      whole trimmed text followed by an ellipsis. */
  lemma EllipsisWithoutCut(text: string, maxLength: int)
    requires 0 < |Trim(text)| <= maxLength < |text|
    ensures TruncateText(text, maxLength) == Trim(text) + "..."
  {
    TrimEmptyIffWhitespace(text);
  }

  lemma TrimPadded()
    ensures Trim("  ab  ") == "ab"
  {
    TrimStartPadded();
    TrimEndPadded();
  }

  lemma TrimStartPadded()
    ensures TrimStart("  ab  ") == "ab  "
  {
    var s := "  ab  ";
    assert IsWhitespace(' ') && !IsWhitespace('a');
    assert s[..2] == "  ";
    TrimStartAt(s, 2);
  }

  lemma TrimEndPadded()
    ensures TrimEnd("ab  ") == "ab"
  {
    var s := "ab  ";
    assert IsWhitespace(' ') && !IsWhitespace('b');
    assert s[2..] == "  ";
    TrimEndAt(s, 2);
  }

  /** The evidently intended shortening: the trimmed text is measured, so an
      ellipsis appears exactly when characters are dropped. */
  function TruncateTextIntended(text: string, maxLength: int): (r: string)
    ensures r == "" <==> AllWhitespace(text)
    ensures |Trim(text)| <= maxLength ==> r == Trim(text)
    ensures |Trim(text)| > maxLength && !AllWhitespace(text) ==>
      r == Prefix(Trim(text), maxLength) + "..." && |Prefix(Trim(text), maxLength)| < |Trim(text)|
  {
    TrimEmptyIffWhitespace(text);
    var t := Trim(text);
    if t == "" then ""
    else if |t| > maxLength then Prefix(t, maxLength) + "..."
    else t
  }

  /** `x || fallback` on an optional string: an absent or empty value falls
      back. */
  function OrElse(value: Option<string>, fallback: string): (r: string)
    ensures r == fallback <==> value.None? || value.value == "" || value.value == fallback
    ensures r != fallback ==> value == Some(r)
  {
    if value.Some? && value.value != "" then value.value else fallback
  }

  /** The label of a history entry: the sheet's name for a sheet, else the
      task's content, with "Arkusz" and "Zadanie" standing in for a missing
      one, shortened to the default length. */
  function HistoryLabel(isSheet: bool, sheetName: Option<string>, taskContent: Option<string>): (r: string)
    ensures isSheet && (sheetName.None? || sheetName.value == "") ==> r == "Arkusz"
    ensures !isSheet && (taskContent.None? || taskContent.value == "") ==> r == "Zadanie"
    ensures isSheet && sheetName.Some? && sheetName.value != "" ==> r == TruncateText(sheetName.value, DefaultMaxLength)
    ensures !isSheet && taskContent.Some? && taskContent.value != "" ==> r == TruncateText(taskContent.value, DefaultMaxLength)
    ensures |r| <= DefaultMaxLength + 3
  {
    var text := if isSheet then OrElse(sheetName, "Arkusz") else OrElse(taskContent, "Zadanie");
    SheetFallbackKept();
    TaskFallbackKept();
    TruncateText(text, DefaultMaxLength)
  }

  /** Text without surrounding white space that fits is kept as it is. */
  lemma KeptWhenShort(text: string, maxLength: int)
    requires |text| <= maxLength && Trim(text) == text && !AllWhitespace(text)
    ensures TruncateText(text, maxLength) == text
  {
  }

  /** The fallback labels are shown whole. */
  lemma SheetFallbackKept()
    ensures TruncateText("Arkusz", DefaultMaxLength) == "Arkusz"
  {
    var a := "Arkusz";
    assert a[0] == 'A' && a[5] == 'z';
    TrimOfSolidEnds(a);
    KeptWhenShort(a, DefaultMaxLength);
  }

  lemma TaskFallbackKept()
    ensures TruncateText("Zadanie", DefaultMaxLength) == "Zadanie"
  {
    var z := "Zadanie";
    assert z[0] == 'Z' && z[6] == 'e';
    TrimOfSolidEnds(z);
    KeptWhenShort(z, DefaultMaxLength);
  }

  /** A name of spaces only is truthy, so it is kept and shortened to an
      empty label. */
  lemma BlankNameGivesEmptyLabel(name: string)
    requires name != "" && AllWhitespace(name)
    ensures HistoryLabel(true, Some(name), None) == ""
  {
  }
}
