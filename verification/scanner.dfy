/** A reading of single KDL 1.0 value tokens into the syntax tree the
    decoder consumes. The library's own grammar (cuddle/grammar.py) is not
    part of this model; this reconstruction covers the token forms the
    encoder writes (strings, identifiers, annotations, numbers, keywords)
    and exists so that the round trips can be stated. */
module Scanner {
  import opened Wrappers
  import opened Text
  import opened Numbers
  import opened Ast

  /** The number of `#` starting at index `i`. */
  function CountHashes(s: string, i: nat): (n: nat)
    requires i <= |s|
    ensures i + n <= |s|
    ensures forall j :: i <= j < i + n ==> s[j] == '#'
    ensures i + n < |s| ==> s[i + n] != '#'
    decreases |s| - i
  {
    if i < |s| && s[i] == '#' then 1 + CountHashes(s, i + 1) else 0
  }

  predicate OccursAt(s: string, w: string, i: nat) {
    i + |w| <= |s| && s[i..i + |w|] == w
  }

  /** The first index at or after `from` holding `c`. */
  function IndexOf(s: string, c: char, from: nat): (r: Option<nat>)
    ensures r.Some? ==> from <= r.value < |s| && s[r.value] == c
    ensures r.Some? ==> forall j :: from <= j < r.value ==> s[j] != c
    ensures r.None? ==> forall j :: from <= j < |s| ==> s[j] != c
    decreases |s| - from
  {
    if from >= |s| then None
    else if s[from] == c then Some(from)
    else IndexOf(s, c, from + 1)
  }

  /** `r#..#"content"#..#`: the content runs to the first quote followed by
      as many hashes as opened the string, which must end the token. */
  function ScanRaw(s: string): Option<StringAst>
    requires |s| > 0
  {
    var n := CountHashes(s, 1);
    var open := 1 + n;
    var close := "\"" + Repeat("#", n);
    RepeatLength("#", n);
    if && open < |s| && s[open] == '"'
       && |s| >= open + 1 + |close|
       && OccursAt(s, close, |s| - |close|)
       && (forall i :: open + 1 <= i < |s| - |close| ==> !OccursAt(s, close, i))
    then Some(RawString(s[open + 1 .. |s| - |close|]))
    else None
  }

  predicate IsHexText(h: string) {
    forall k :: 0 <= k < |h| ==> DigitValue(h[k]).Some? && DigitValue(h[k]).value < 16
  }

  /** The elements of a quoted string up to its closing quote, which must
      end the token. */
  function ScanElems(s: string): Option<seq<StrElem>>
    decreases |s|
  {
    if |s| == 0 then None
    else if s[0] == '"' then (if |s| == 1 then Some([]) else None)
    else if s[0] == '\\' then
      if |s| < 2 then None
      else if s[1] == 'u' then
        if |s| < 3 || s[2] != '{' then None
        else
          match IndexOf(s, '}', 3)
          case None => None
          case Some(j) =>
            var hex := s[3..j];
            if 1 <= |hex| <= 6 && IsHexText(hex) then
              var rest :- ScanElems(s[j + 1..]);
              Some([Esc(Unichar(hex))] + rest)
            else None
      else
        var rest :- ScanElems(s[2..]);
        Some([Esc(Named(s[1]))] + rest)
    else
      var rest :- ScanElems(s[1..]);
      Some([Char(s[0])] + rest)
  }

  /** One whole string token, quoted or raw. */
  function ScanString(s: string): Option<StringAst> {
    if |s| == 0 then None
    else if s[0] == '"' then
      var elems :- ScanElems(s[1..]);
      Some(EscString(elems))
    else if s[0] == 'r' then ScanRaw(s)
    else None
  }

  /** Whitespace and newlines of KDL 1.0. */
  predicate IsKdlSpace(c: char) {
    || c == '\t' || c == ' ' || c == '\U{00A0}' || c == '\U{1680}'
    || ('\U{2000}' <= c <= '\U{200A}')
    || c == '\U{202F}' || c == '\U{205F}' || c == '\U{3000}' || c == '\U{FEFF}'
    || c == '\r' || c == '\n' || c == '\U{0085}' || c == '\U{000C}'
    || c == '\U{2028}' || c == '\U{2029}'
  }

  predicate IsKdlIdentChar(c: char) {
    !IsKdlSpace(c) && c !in "\\/(){}<>;[]=,\""
  }

  /** A bare identifier of KDL 1.0: identifier characters, not starting
      with a digit or a signed digit, and no keyword. */
  predicate IsKdlIdentifier(s: string) {
    && |s| > 0
    && (forall k :: 0 <= k < |s| ==> IsKdlIdentChar(s[k]))
    && !IsDecimalDigit(s[0])
    && !(|s| > 1 && (s[0] == '+' || s[0] == '-') && IsDecimalDigit(s[1]))
    && s != "true" && s != "false" && s != "null"
  }

  function ScanIdent(s: string): Option<IdentAst> {
    match ScanString(s)
    case Some(a) => Some(Quoted(a))
    case None => if IsKdlIdentifier(s) then Some(Bare(s)) else None
  }

  /** The index after the run of digits and underscores starting at `i`. */
  function RunEnd(s: string, i: nat): (r: nat)
    requires i <= |s|
    ensures i <= r <= |s|
    decreases |s| - i
  {
    if i < |s| && (IsDecimalDigit(s[i]) || s[i] == '_') then RunEnd(s, i + 1) else i
  }

  /** A digit at `i` and the run after it. */
  function DigitsFrom(s: string, i: nat): (r: Option<nat>)
    ensures r.Some? ==> i < r.value <= |s|
  {
    if i < |s| && IsDecimalDigit(s[i]) then Some(RunEnd(s, i + 1)) else None
  }

  /** `[+-]? digits ('.' digits)? ([eE] [+-]? digits)?`, underscores
      allowed after the first digit of each part. */
  predicate IsKdlDecimal(s: string) {
    var i0 := if |s| > 0 && (s[0] == '+' || s[0] == '-') then 1 else 0;
    match DigitsFrom(s, i0)
    case None => false
    case Some(i1) =>
      var frac := if i1 < |s| && s[i1] == '.' then DigitsFrom(s, i1 + 1) else Some(i1);
      match frac
      case None => false
      case Some(i2) =>
        var exp :=
          if i2 < |s| && (s[i2] == 'e' || s[i2] == 'E') then
            DigitsFrom(s, if i2 + 1 < |s| && (s[i2 + 1] == '+' || s[i2 + 1] == '-') then i2 + 2 else i2 + 1)
          else Some(i2);
        exp == Some(|s|)
  }

  predicate IsRadixDigitRun(s: string, i: nat, base: nat) {
    && i < |s|
    && DigitValue(s[i]).Some? && DigitValue(s[i]).value < base
    && forall k :: i < k < |s| ==> s[k] == '_' || (DigitValue(s[k]).Some? && DigitValue(s[k]).value < base)
  }

  /** `[+-]? 0 <marker> digit (digit | _)*`. */
  predicate IsRadixText(s: string, marker: char, base: nat) {
    var i0 := if |s| > 0 && (s[0] == '+' || s[0] == '-') then 1 else 0;
    i0 + 2 <= |s| && s[i0] == '0' && s[i0 + 1] == marker && IsRadixDigitRun(s, i0 + 2, base)
  }

  function ScanLiteral(s: string): Option<Literal> {
    if s == "true" || s == "false" then Some(BooleanLit(s))
    else if s == "null" then Some(NullLit)
    else if IsKdlDecimal(s) then Some(DecimalLit(s))
    else if IsRadixText(s, 'x', 16) then Some(Hex(s))
    else if IsRadixText(s, 'o', 8) then Some(Octal(s))
    else if IsRadixText(s, 'b', 2) then Some(Binary(s))
    else
      var a :- ScanString(s);
      Some(StringLit(a))
  }

  /** One value token, with its annotation read up to the first `)`. */
  function ScanValue(s: string): Option<ValueAst> {
    if |s| > 0 && s[0] == '(' then
      var j :- IndexOf(s, ')', 1);
      var tag :- ScanIdent(s[1..j]);
      var lit :- ScanLiteral(s[j + 1..]);
      Some(ValueAst(Some(tag), lit))
    else
      var lit :- ScanLiteral(s);
      Some(ValueAst(None, lit))
  }
}
