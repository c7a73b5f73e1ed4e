/** Static error reports. The console output of the reporting routine is replaced by
    a diagnostic value that the scanner and the parser append to a returned sequence. */
module Reporting {
  import opened Tokens

  /** One reported error: the line, the "where" part and the message. */
  datatype Diagnostic = Diagnostic(line: nat, where: string, message: string)

  /** A scanner error: no position inside the line. */
  function ErrorAtLine(line: nat, message: string): (d: Diagnostic)
    ensures d.line == line && d.message == message && d.where == ""
  {
    Diagnostic(line, "", message)
  }

  /** A parser error at a token: " at end" for the end-of-file token, the quoted lexeme otherwise. */
  function ErrorAtToken(token: Token, message: string): (d: Diagnostic)
    ensures d.line == token.line && d.message == message
    ensures token.kind == EOF <==> d.where == " at end"
    ensures token.kind != EOF ==> d.where == " at '" + token.lexeme + "'"
  {
    if token.kind == EOF then Diagnostic(token.line, " at end", message)
    else
      var w := " at '" + token.lexeme + "'";
      assert w[4] == '\'' && " at end"[4] == 'e';
      Diagnostic(token.line, w, message)
  }

  /** The decimal text of a count, as Java's string concatenation writes an int. */
  function DecimalString(n: nat): (s: string)
    ensures |s| >= 1 && (forall i :: 0 <= i < |s| ==> '0' <= s[i] <= '9')
    ensures s[0] == '0' ==> n == 0
  {
    var digit := ('0' as int + n % 10) as char;
    if n < 10 then [digit] else DecimalString(n / 10) + [digit]
  }

  /** The text `report` prints for a diagnostic: the line in brackets, "Error", the
      "where" part, then the message after a colon. */
  function ReportText(d: Diagnostic): (text: string)
    ensures |text| > 6 && text[..6] == "[line "
    ensures var k := 6 + |DecimalString(d.line)|;
      k < |text| && text[6..k] == DecimalString(d.line) && text[k..] == "] Error" + d.where + ": " + d.message
  {
    var head := "[line " + DecimalString(d.line);
    var rest := "] Error" + d.where + ": " + d.message;
    assert head[..6] == "[line " && head[6..] == DecimalString(d.line);
    assert (head + rest)[..|head|] == head && (head + rest)[|head|..] == rest;
    head + rest
  }

  /** The report of an uncaught runtime error: its message, then the line in brackets. */
  function RuntimeErrorReport(message: string, line: nat): (text: string)
    ensures |message| < |text| && text[..|message|] == message
    ensures text[|message|..] == "\n[line " + DecimalString(line) + "]"
  {
    message + "\n[line " + DecimalString(line) + "]"
  }
}
