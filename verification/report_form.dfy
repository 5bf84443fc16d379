/** The report form (src/components/ReportForm.tsx): the category list, the form's two state
    fields, and the submit rule "refuse a blank description, otherwise forward it and clear it". */
module ReportForm {
  import opened Wrappers

  /** `reportCategories`: the categories a report can carry, in display order. */
  const ReportCategories: seq<string> := ["Pothole", "Traffic Jam", "Road Debris", "Broken Sign"]

  /** The list has four distinct entries and starts with "Pothole", the form's initial choice. */
  lemma ReportCategoriesShape()
    ensures |ReportCategories| == 4
    ensures forall i, j :: 0 <= i < j < |ReportCategories| ==> ReportCategories[i] != ReportCategories[j]
    ensures ReportCategories[0] == "Pothole"
  {
  }

  /** The characters that `String.prototype.trim` removes: ECMA-262's WhiteSpace production
      (TAB, VT, FF, SPACE, NBSP, ZWNBSP and the Unicode category Zs) and its LineTerminator
      production (LF, CR, LINE SEPARATOR, PARAGRAPH SEPARATOR). */
  predicate IsWhiteSpace(c: char) {
    c == '\t' || c == '\n' || c == '\U{000B}' || c == '\U{000C}' || c == '\r' ||
    c == ' ' || c == '\U{00A0}' || c == '\U{1680}' ||
    ('\U{2000}' <= c <= '\U{200A}') ||
    c == '\U{2028}' || c == '\U{2029}' || c == '\U{202F}' || c == '\U{205F}' ||
    c == '\U{3000}' || c == '\U{FEFF}'
  }

  /** Every character of `s` is white space (true of the empty string). */
  predicate AllWhiteSpace(s: string) {
    forall k :: 0 <= k < |s| ==> IsWhiteSpace(s[k])
  }

  /** The length of the longest all-white-space prefix of `s`. */
  function LeadingWhiteSpace(s: string): (n: nat)
    ensures n <= |s|
    ensures AllWhiteSpace(s[..n])
    ensures n < |s| ==> !IsWhiteSpace(s[n])
  {
    if s == [] || !IsWhiteSpace(s[0]) then 0
    else 1 + LeadingWhiteSpace(s[1..])
  }

  /** The length of the longest all-white-space suffix of `s`. */
  function TrailingWhiteSpace(s: string): (n: nat)
    ensures n <= |s|
    ensures AllWhiteSpace(s[|s| - n..])
    ensures n < |s| ==> !IsWhiteSpace(s[|s| - 1 - n])
  {
    if s == [] || !IsWhiteSpace(s[|s| - 1]) then 0
    else 1 + TrailingWhiteSpace(s[..|s| - 1])
  }

  /** `s.trim()`: `s` without its leading and trailing white space. It is empty exactly when
      `s` is all white space, and otherwise starts and ends with a non-white-space character. */
  function Trim(s: string): (t: string)
    ensures |t| <= |s|
    ensures t == [] <==> AllWhiteSpace(s)
    ensures t != [] ==> !IsWhiteSpace(t[0]) && !IsWhiteSpace(t[|t| - 1])
  {
    var i := LeadingWhiteSpace(s);
    if i == |s| then []
    else
      var j := |s| - TrailingWhiteSpace(s);
      s[i..j]
  }

  /** `Trim` removes only white space, and only at the two ends: `s` is the trimmed string
      with an all-white-space prefix and suffix put back. */
  lemma TrimSplits(s: string) returns (lead: string, trail: string)
    ensures s == lead + Trim(s) + trail
    ensures AllWhiteSpace(lead) && AllWhiteSpace(trail)
  {
    var i := LeadingWhiteSpace(s);
    if i == |s| {
      lead, trail := s, [];
      assert s[..i] == s;
    } else {
      var j := |s| - TrailingWhiteSpace(s);
      lead, trail := s[..i], s[j..];
      assert s == s[..i] + s[i..j] + s[j..];
    }
  }

  /** What the form hands to its `onSubmit` callback. */
  datatype Submission = Submission(description: string, category: string)

  /** The form's state: the text area and the selected category. */
  class Form {
    var description: string
    var category: string

    /** The category is always one the select box offers. */
    ghost predicate Valid()
      reads this
    {
      category in ReportCategories
    }

    /** Initial state: empty description, the first category. */
    constructor ()
      ensures Valid()
      ensures description == "" && category == ReportCategories[0]
    {
      description := "";
      category := ReportCategories[0];
    }

    /** The text area's `onChange`: the description becomes the typed text. */
    method SetDescription(text: string)
      requires Valid()
      modifies this
      ensures Valid()
      ensures description == text && category == old(category)
    {
      description := text;
    }

    /** The select box's `onValueChange`: it only ever offers the report categories. */
    method SetCategory(choice: string)
      requires Valid()
      requires choice in ReportCategories
      modifies this
      ensures Valid()
      ensures category == choice && description == old(description)
    {
      category := choice;
    }

    /** `handleSubmit`: a blank description is refused and nothing changes; otherwise the
        untrimmed description and the current category are forwarded once (the returned
        submission). When the `onSubmit` callback returns normally (`callbackReturns`), the
        description is then cleared; when it throws, the handler stops before the clear and the
        description is kept. The category is never changed. */
    method HandleSubmit(callbackReturns: bool) returns (sent: Option<Submission>)
      requires Valid()
      modifies this
      ensures Valid()
      ensures sent.None? <==> AllWhiteSpace(old(description))
      ensures sent.Some? ==> sent.value == Submission(old(description), old(category))
      ensures sent.Some? ==> sent.value.category in ReportCategories
      ensures description == (if sent.Some? && callbackReturns then "" else old(description))
      ensures category == old(category)
    {
      if Trim(description) == [] {
        return None;
      }
      sent := Some(Submission(description, category));
      if !callbackReturns {
        return;
      }
      description := "";
    }
  }
}
