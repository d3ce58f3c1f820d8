/** Chemical formula text as both demo processors write it: each element
    symbol followed by its count, where a count of 1 is left implicit and any
    other count is written as an HTML subscript `<sub>n</sub>`. */
module Formula {
  import opened Options
  import opened Decimal

  /** One element of a formula and how many atoms of it there are. */
  datatype Term = Term(symbol: char, count: nat)

  /** The conventional order the formula lists elements in: C, H, N, O, S. */
  const FormulaOrder: seq<char> := ['C', 'H', 'N', 'O', 'S']

  const SubOpen: string := "<sub>"
  const SubClose: string := "</sub>"

  predicate IsSymbol(c: char) {
    'A' <= c <= 'Z'
  }

  /** Every term names an element by an upper-case letter and has at least one atom. */
  predicate WellFormed(terms: seq<Term>) {
    forall k :: 0 <= k < |terms| ==> IsSymbol(terms[k].symbol) && terms[k].count >= 1
  }

  /** The text of one term: the bare symbol for a count of 1, otherwise
      the symbol followed by the subscripted count. */
  function TermText(t: Term): string {
    if t.count == 1 then [t.symbol] else [t.symbol] + SubOpen + NatToString(t.count) + SubClose
  }

  /** The joined text of all terms, in the given order. */
  function Render(terms: seq<Term>): string
    decreases |terms|
  {
    if terms == [] then [] else TermText(terms[0]) + Render(terms[1..])
  }

  /** Rendering a term ahead of a list is that term's text ahead of the list's text. */
  lemma RenderCons(t: Term, rest: seq<Term>)
    ensures Render([t] + rest) == TermText(t) + Render(rest)
  {
    assert ([t] + rest)[1..] == rest;
  }

  lemma {:induction false} RenderAppend(a: seq<Term>, b: seq<Term>)
    ensures Render(a + b) == Render(a) + Render(b)
    decreases |a|
  {
    if a == [] {
      assert a + b == b;
    } else {
      assert (a + b)[1..] == a[1..] + b;
      RenderAppend(a[1..], b);
    }
  }

  /** The terms for the symbols of `order` that `counts` holds, in that order;
      symbols that `counts` lacks are skipped. */
  function TermsInOrder(counts: map<char, nat>, order: seq<char>): seq<Term>
    decreases |order|
  {
    if order == [] then []
    else if order[0] in counts then [Term(order[0], counts[order[0]])] + TermsInOrder(counts, order[1..])
    else TermsInOrder(counts, order[1..])
  }

  lemma {:induction false} TermsInOrderSnoc(counts: map<char, nat>, order: seq<char>, s: char)
    ensures TermsInOrder(counts, order + [s])
         == TermsInOrder(counts, order) + (if s in counts then [Term(s, counts[s])] else [])
    decreases |order|
  {
    if order == [] {
      assert order + [s] == [s];
    } else {
      assert (order + [s])[1..] == order[1..] + [s];
      TermsInOrderSnoc(counts, order[1..], s);
    }
  }

  /** The longest run of digits at the front of `s`. */
  function DigitRun(s: string): (d: string)
    ensures |d| <= |s| && d == s[..|d|] && AllDigits(d)
    ensures |d| < |s| ==> !IsDigit(s[|d|])
    decreases |s|
  {
    if s != [] && IsDigit(s[0]) then [s[0]] + DigitRun(s[1..]) else []
  }

  /** Reads formula text back into its terms (the reference inverse of `Render`). */
  function ParseFormula(s: string): Option<seq<Term>>
    decreases |s|
  {
    if s == [] then Some([])
    else if !IsSymbol(s[0]) then None
    else
      var rest := s[1..];
      if SubOpen <= rest then
        var body := rest[|SubOpen|..];
        var digits := DigitRun(body);
        var after := body[|digits|..];
        if digits == [] || !(SubClose <= after) then None
        else
          match ParseFormula(after[|SubClose|..])
          case None => None
          case Some(ts) => Some([Term(s[0], ParseDecimal(digits))] + ts)
      else
        match ParseFormula(rest)
        case None => None
        case Some(ts) => Some([Term(s[0], 1)] + ts)
  }

  lemma {:induction false} DigitRunOfDigits(d: string, x: string)
    requires AllDigits(d)
    requires x == [] || !IsDigit(x[0])
    ensures DigitRun(d + x) == d
    decreases |d|
  {
    if d == [] {
      assert d + x == x;
    } else {
      assert (d + x)[1..] == d[1..] + x;
      DigitRunOfDigits(d[1..], x);
    }
  }

  lemma {:induction false} RenderStartsWithSymbol(terms: seq<Term>)
    requires WellFormed(terms)
    ensures Render(terms) == [] || IsSymbol(Render(terms)[0])
  {
    if terms != [] {
      assert TermText(terms[0])[0] == terms[0].symbol;
    }
  }

  /** What parsing a term's text followed by `tail` gives, when `tail` is
      empty or starts with the next symbol. */
  function ParsedAfter(t: Term, tail: string): Option<seq<Term>> {
    match ParseFormula(tail)
    case None => None
    case Some(ts) => Some([t] + ts)
  }

  lemma ParseBareTerm(t: Term, tail: string)
    requires IsSymbol(t.symbol) && t.count == 1
    requires tail == [] || IsSymbol(tail[0])
    ensures ParseFormula(TermText(t) + tail) == ParsedAfter(t, tail)
  {
    var s := TermText(t) + tail;
    assert s[0] == t.symbol && s[1..] == tail;
    assert !(SubOpen <= tail);
    assert t == Term(t.symbol, 1);
  }

  lemma ParseSubscriptTerm(t: Term, tail: string)
    requires IsSymbol(t.symbol) && t.count > 1
    ensures ParseFormula(TermText(t) + tail) == ParsedAfter(t, tail)
  {
    var d := NatToString(t.count);
    var s := TermText(t) + tail;
    var rest := s[1..];
    assert s[0] == t.symbol;
    assert rest == SubOpen + d + SubClose + tail;
    assert SubOpen <= rest;
    var body := rest[|SubOpen|..];
    assert body == d + (SubClose + tail);
    DigitRunOfDigits(d, SubClose + tail);
    var after := body[|d|..];
    assert after == SubClose + tail;
    assert SubClose <= after;
    assert after[|SubClose|..] == tail;
    ParseNatToString(t.count);
  }

  /** Formula text is unambiguous: parsing the rendering of well-formed terms
      gives back exactly those terms, counts included. */
  lemma {:induction false} ParseRender(terms: seq<Term>)
    requires WellFormed(terms)
    ensures ParseFormula(Render(terms)) == Some(terms)
    decreases |terms|
  {
    if terms != [] {
      var t, tail := terms[0], Render(terms[1..]);
      assert WellFormed(terms[1..]);
      ParseRender(terms[1..]);
      RenderStartsWithSymbol(terms[1..]);
      if t.count == 1 {
        ParseBareTerm(t, tail);
      } else {
        ParseSubscriptTerm(t, tail);
      }
      assert terms == [t] + terms[1..];
    }
  }

  /** Two well-formed term lists with the same text are the same list. */
  lemma RenderInjective(a: seq<Term>, b: seq<Term>)
    requires WellFormed(a) && WellFormed(b)
    requires Render(a) == Render(b)
    ensures a == b
  {
    ParseRender(a);
    ParseRender(b);
  }
}
