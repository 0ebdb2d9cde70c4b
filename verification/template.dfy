/**
 * Option values and command composition: `' '.join(command)` and the part of
 * Python's `str.format` that the tasks use (`{name}` keyword fields, `{}`
 * automatically numbered positional fields, `{{` and `}}` escapes).
 */
module Template {
  import opened Wrappers

  /** An option value: a string, or an integer such as the local invoke timeout. */
  datatype Value = Str(s: string) | Int(i: int)

  predicate IsDigit(c: char) {
    '0' as int <= c as int <= '9' as int
  }

  predicate Digits(s: string) {
    forall i :: 0 <= i < |s| ==> IsDigit(s[i])
  }

  /** Decimal digits of a natural number, most significant first, as `str(n)` gives them. */
  function NatToDecimal(n: nat): (r: string)
    ensures |r| >= 1 && Digits(r)
    ensures n >= 1 ==> r[0] != '0'
    ensures |r| == 1 || r[0] != '0'
    decreases n
  {
    if n < 10 then [('0' as int + n) as char]
    else NatToDecimal(n / 10) + [('0' as int + n % 10) as char]
  }

  /** The number a string of decimal digits denotes; the empty string denotes 0. */
  function DecimalValue(s: string): nat
    requires Digits(s)
    decreases |s|
  {
    if s == [] then 0
    else
      assert IsDigit(s[|s| - 1]);
      DecimalValue(s[..|s| - 1]) * 10 + (s[|s| - 1] as int - '0' as int)
  }

  lemma {:induction false} NatToDecimalRoundTrip(n: nat)
    ensures DecimalValue(NatToDecimal(n)) == n
    decreases n
  {
    if n >= 10 {
      NatToDecimalRoundTrip(n / 10);
      var r := NatToDecimal(n);
      assert r[..|r| - 1] == NatToDecimal(n / 10);
    }
  }

  /** `str(i)` for an integer: an optional minus sign and decimal digits, no braces and no blanks. */
  function IntToDecimal(i: int): (r: string)
    ensures NoBraces(r) && ' ' !in r
    ensures i < 0 ==> |r| >= 2 && r[0] == '-' && Digits(r[1..]) && DecimalValue(r[1..]) == -i
    ensures i < 0 ==> r[1] != '0'
    ensures i >= 0 ==> Digits(r) && DecimalValue(r) == i
    ensures i >= 0 ==> |r| >= 1 && (|r| == 1 || r[0] != '0')
  {
    var d := NatToDecimal(if i < 0 then -i else i);
    NatToDecimalRoundTrip(if i < 0 then -i else i);
    var r := if i < 0 then "-" + d else d;
    assert i < 0 ==> r[1..] == d;
    r
  }

  /** What `format` writes for a value. */
  function Render(v: Value): string {
    match v
    case Str(s) => s
    case Int(i) => IntToDecimal(i)
  }

  /** The string holds neither brace. */
  predicate NoBraces(s: string) {
    forall i :: 0 <= i < |s| ==> s[i] != '{' && s[i] != '}'
  }

  // ---------------------------------------------------------------------------
  // ' '.join(fragments)

  /** The fragments separated by one blank each, as `' '.join(fragments)`. */
  function Join(fragments: seq<string>): string
    decreases |fragments|
  {
    if |fragments| == 0 then ""
    else if |fragments| == 1 then fragments[0]
    else fragments[0] + " " + Join(fragments[1..])
  }

  function TotalLength(fragments: seq<string>): nat
    decreases |fragments|
  {
    if fragments == [] then 0 else |fragments[0]| + TotalLength(fragments[1..])
  }

  /** Appending a fragment to the list appends one blank and the fragment to the joined string. */
  lemma {:induction false} JoinAppend(fragments: seq<string>, last: string)
    requires fragments != []
    ensures Join(fragments + [last]) == Join(fragments) + " " + last
    decreases |fragments|
  {
    if |fragments| > 1 {
      JoinAppend(fragments[1..], last);
      assert (fragments + [last])[1..] == fragments[1..] + [last];
    }
  }

  /** Joining adds exactly one blank between neighbouring fragments and nothing else. */
  lemma {:induction false} JoinLength(fragments: seq<string>)
    requires fragments != []
    ensures |Join(fragments)| == TotalLength(fragments) + |fragments| - 1
    decreases |fragments|
  {
    if |fragments| > 1 {
      JoinLength(fragments[1..]);
    } else {
      assert fragments[1..] == [];
    }
  }

  // ---------------------------------------------------------------------------
  // str.format

  /** One piece of a format string: a literal character, a `{name}` field or a `{}` field. */
  datatype Piece = Literal(c: char) | Named(name: string) | Auto

  /**
   * A scanned format string: the pieces read before the first malformed
   * brace, and whether the whole string was read.
   */
  datatype Scanned = Scanned(pieces: seq<Piece>, complete: bool)

  datatype FormatError =
    | Malformed                 // a single '{' or '}', an unclosed field, or '{' in a field name
    | MissingKey(key: string)   // KeyError: a `{name}` field without a keyword argument
    | IndexOutOfRange(index: nat) // IndexError: a `{}` field past the positional arguments

  function Push(p: Piece, rest: Scanned): Scanned {
    Scanned([p] + rest.pieces, rest.complete)
  }

  /** The index of the first `c` in `s`, or `|s|` when there is none. */
  function IndexOf(s: string, c: char): (k: nat)
    ensures k <= |s|
    ensures forall j :: 0 <= j < k ==> s[j] != c
    ensures k < |s| ==> s[k] == c
    decreases |s|
  {
    if s == [] || s[0] == c then 0 else 1 + IndexOf(s[1..], c)
  }

  /**
   * The first piece of a non-empty format string and the number of characters
   * it spans, or None when the string starts with a malformed brace.
   */
  function Lead(s: string): (r: Option<(Piece, nat)>)
    requires s != []
    ensures r.Some? ==> 1 <= r.value.1 <= |s|
  {
    if s[0] == '{' then
      if |s| >= 2 && s[1] == '{' then Some((Literal('{'), 2))
      else
        var k := IndexOf(s[1..], '}');
        if k == |s| - 1 || IndexOf(s[1..], '{') < k then None
        else Some((if k == 0 then Auto else Named(s[1..k + 1]), k + 2))
    else if s[0] == '}' then
      if |s| >= 2 && s[1] == '}' then Some((Literal('}'), 2)) else None
    else Some((Literal(s[0]), 1))
  }

  /** Reads a format string left to right, stopping at the first malformed brace. */
  function Scan(s: string): Scanned
    decreases |s|
  {
    if s == [] then Scanned([], true)
    else if Lead(s).None? then Scanned([], false)
    else Push(Lead(s).value.0, Scan(s[Lead(s).value.1..]))
  }

  function Prepend(s: string, r: Result<string, FormatError>): Result<string, FormatError> {
    match r
    case Ok(t) => Ok(s + t)
    case Err(e) => Err(e)
  }

  /** The text one piece stands for; `next` is the index of the positional argument a `{}` takes. */
  function Fill(p: Piece, args: seq<Value>, kwargs: map<string, Value>, next: nat): Result<string, FormatError> {
    match p
    case Literal(c) => Ok([c])
    case Named(n) => if n in kwargs then Ok(Render(kwargs[n])) else Err(MissingKey(n))
    case Auto => if next < |args| then Ok(Render(args[next])) else Err(IndexOutOfRange(next))
  }

  /** Fills the pieces in order; the first piece that cannot be filled decides the error. */
  function Substitute(pieces: seq<Piece>, complete: bool, args: seq<Value>, kwargs: map<string, Value>, next: nat)
    : Result<string, FormatError>
    decreases |pieces|
  {
    if pieces == [] then (if complete then Ok("") else Err(Malformed))
    else
      match Fill(pieces[0], args, kwargs, next)
      case Err(e) => Err(e)
      case Ok(t) => Prepend(t, Substitute(pieces[1..], complete, args, kwargs, if pieces[0].Auto? then next + 1 else next))
  }

  /** `template.format(*args, **kwargs)`. */
  function Format(template: string, args: seq<Value>, kwargs: map<string, Value>): Result<string, FormatError> {
    var sc := Scan(template);
    Substitute(sc.pieces, sc.complete, args, kwargs, 0)
  }

  /** `' '.join(fragments).format(**options)`, the way every task builds a command. */
  function Compose(fragments: seq<string>, options: map<string, Value>): Result<string, FormatError> {
    Format(Join(fragments), [], options)
  }

  function Names(pieces: seq<Piece>): set<string>
    decreases |pieces|
  {
    if pieces == [] then {}
    else (if pieces[0].Named? then {pieces[0].name} else {}) + Names(pieces[1..])
  }

  function AutoCount(pieces: seq<Piece>): nat
    decreases |pieces|
  {
    if pieces == [] then 0 else (if pieces[0].Auto? then 1 else 0) + AutoCount(pieces[1..])
  }

  /** The names of the `{name}` fields of a format string, up to its first malformed brace. */
  function Placeholders(template: string): set<string> {
    Names(Scan(template).pieces)
  }

  function Field(name: string): string {
    "{" + name + "}"
  }

  // ---------------------------------------------------------------------------
  // What format guarantees

  /** Filling fails on an incomplete scan, a missing keyword or too few positional arguments, and on nothing else. */
  lemma {:induction false} SubstituteOkIff(pieces: seq<Piece>, complete: bool, args: seq<Value>, kwargs: map<string, Value>, next: nat)
    requires next <= |args|
    ensures Substitute(pieces, complete, args, kwargs, next).Ok?
        <==> complete && Names(pieces) <= kwargs.Keys && next + AutoCount(pieces) <= |args|
    decreases |pieces|
  {
    if pieces != [] {
      var after := if pieces[0].Auto? && next < |args| then next + 1 else next;
      SubstituteOkIff(pieces[1..], complete, args, kwargs, after);
      var rest := Substitute(pieces[1..], complete, args, kwargs, after);
      match pieces[0]
      case Literal(c) =>
        assert Substitute(pieces, complete, args, kwargs, next) == Prepend([c], rest);
        assert Names(pieces) == Names(pieces[1..]);
      case Named(n) =>
        assert n in kwargs ==> Substitute(pieces, complete, args, kwargs, next) == Prepend(Render(kwargs[n]), rest);
        assert Names(pieces) == {n} + Names(pieces[1..]);
      case Auto =>
        assert next < |args| ==> Substitute(pieces, complete, args, kwargs, next) == Prepend(Render(args[next]), rest);
        assert Names(pieces) == Names(pieces[1..]);
        assert AutoCount(pieces) == 1 + AutoCount(pieces[1..]);
    }
  }

  /**
   * `format` succeeds exactly when the string is well formed, every `{name}`
   * field names a keyword argument and there is a positional argument for
   * every `{}` field: nothing is left unfilled.
   */
  lemma FormatOkIff(template: string, args: seq<Value>, kwargs: map<string, Value>)
    ensures Format(template, args, kwargs).Ok?
        <==> Scan(template).complete && Placeholders(template) <= kwargs.Keys
             && AutoCount(Scan(template).pieces) <= |args|
  {
    var sc := Scan(template);
    SubstituteOkIff(sc.pieces, sc.complete, args, kwargs, 0);
  }

  /** A KeyError names a field of the template that has no keyword argument. */
  lemma {:induction false} SubstituteMissingKey(pieces: seq<Piece>, complete: bool, args: seq<Value>, kwargs: map<string, Value>, next: nat, key: string)
    requires Substitute(pieces, complete, args, kwargs, next) == Err(MissingKey(key))
    ensures key in Names(pieces) && key !in kwargs
    decreases |pieces|
  {
    if Fill(pieces[0], args, kwargs, next).Ok? {
      SubstituteMissingKey(pieces[1..], complete, args, kwargs, if pieces[0].Auto? then next + 1 else next, key);
    }
  }

  lemma FormatMissingKey(template: string, args: seq<Value>, kwargs: map<string, Value>, key: string)
    requires Format(template, args, kwargs) == Err(MissingKey(key))
    ensures key in Placeholders(template) && key !in kwargs
  {
    var sc := Scan(template);
    SubstituteMissingKey(sc.pieces, sc.complete, args, kwargs, 0, key);
  }

  lemma {:induction false} IndexOfAppend(x: string, y: string, c: char)
    requires IndexOf(x, c) < |x|
    ensures IndexOf(x + y, c) == IndexOf(x, c)
    decreases |x|
  {
    if x[0] != c {
      IndexOfAppend(x[1..], y, c);
      assert (x + y)[1..] == x[1..] + y;
    }
  }

  lemma IndexOfAppendAbsent(x: string, y: string, c: char)
    requires IndexOf(x, c) == |x|
    ensures IndexOf(x + y, c) >= |x|
  {
  }

  lemma IndexOfEnd(x: string)
    requires '}' !in x
    ensures IndexOf(x + "}", '}') == |x|
  {
    var s := x + "}";
    assert s[|x|] == '}';
  }

  /** The first piece of a string is read the same when more text follows it. */
  lemma LeadAppend(a: string, b: string)
    requires a != [] && Lead(a).Some?
    ensures Lead(a + b) == Lead(a)
  {
    var ab := a + b;
    assert ab[0] == a[0];
    if a[0] == '{' && !(|a| >= 2 && a[1] == '{') {
      assert ab[1..] == a[1..] + b;
      IndexOfAppend(a[1..], b, '}');
      if IndexOf(a[1..], '{') < |a| - 1 {
        IndexOfAppend(a[1..], b, '{');
      } else {
        IndexOfAppendAbsent(a[1..], b, '{');
      }
      var k := IndexOf(a[1..], '}');
      assert ab[1..k + 1] == a[1..k + 1];
    }
  }

  lemma ScanStep(s: string)
    requires s != [] && Lead(s).Some?
    ensures Scan(s) == Push(Lead(s).value.0, Scan(s[Lead(s).value.1..]))
  {
  }

  lemma {:induction false} ScanAppend(a: string, b: string)
    requires Scan(a).complete
    ensures Scan(a + b) == Scanned(Scan(a).pieces + Scan(b).pieces, Scan(b).complete)
    decreases |a|
  {
    if a == [] {
      assert a + b == b;
    } else {
      var n := Lead(a).value.1;
      ScanStep(a);
      ScanAppend(a[n..], b);
      ScanAppendStep(a, b);
    }
  }

  lemma ScanAppendStep(a: string, b: string)
    requires a != [] && Lead(a).Some?
    requires Scan(a[Lead(a).value.1..] + b)
          == Scanned(Scan(a[Lead(a).value.1..]).pieces + Scan(b).pieces, Scan(b).complete)
    ensures Scan(a + b) == Scanned(Scan(a).pieces + Scan(b).pieces, Scan(b).complete)
  {
    ScanLeadAppend(a, b);
    ScanStep(a);
    PushAppend(Lead(a).value.0, Scan(a[Lead(a).value.1..]), Scan(b));
  }

  lemma PushAppend(p: Piece, ra: Scanned, rb: Scanned)
    ensures Push(p, Scanned(ra.pieces + rb.pieces, rb.complete)) == Scanned(Push(p, ra).pieces + rb.pieces, rb.complete)
  {
    assert [p] + (ra.pieces + rb.pieces) == ([p] + ra.pieces) + rb.pieces;
  }

  lemma ScanLeadAppend(a: string, b: string)
    requires a != [] && Lead(a).Some?
    ensures Scan(a + b) == Push(Lead(a).value.0, Scan(a[Lead(a).value.1..] + b))
  {
    var ab := a + b;
    var n := Lead(a).value.1;
    LeadAppend(a, b);
    ScanStep(ab);
    assert ab[n..] == a[n..] + b;
  }

  lemma PrependAssoc(x: string, y: string, r: Result<string, FormatError>)
    ensures Prepend(x, Prepend(y, r)) == Prepend(x + y, r)
  {
    if r.Ok? {
      assert x + (y + r.value) == (x + y) + r.value;
    }
  }

  lemma {:induction false} SubstituteAppend(p: seq<Piece>, q: seq<Piece>, complete: bool, args: seq<Value>, kwargs: map<string, Value>, next: nat)
    ensures Substitute(p, true, args, kwargs, next).Ok? ==>
      Substitute(p + q, complete, args, kwargs, next)
        == Prepend(Substitute(p, true, args, kwargs, next).value, Substitute(q, complete, args, kwargs, next + AutoCount(p)))
    ensures Substitute(p, true, args, kwargs, next).Err? ==>
      Substitute(p + q, complete, args, kwargs, next) == Substitute(p, true, args, kwargs, next)
    decreases |p|
  {
    if p == [] {
      assert p + q == q;
      var rest := Substitute(q, complete, args, kwargs, next);
      assert rest.Ok? ==> "" + rest.value == rest.value;
    } else {
      var after := if p[0].Auto? then next + 1 else next;
      assert (p + q)[0] == p[0];
      assert (p + q)[1..] == p[1..] + q;
      SubstituteAppend(p[1..], q, complete, args, kwargs, after);
      var f := Fill(p[0], args, kwargs, next);
      if f.Ok? && Substitute(p[1..], true, args, kwargs, after).Ok? {
        PrependAssoc(f.value, Substitute(p[1..], true, args, kwargs, after).value,
                     Substitute(q, complete, args, kwargs, after + AutoCount(p[1..])));
      }
    }
  }

  /**
   * Formatting a concatenation formats the two parts one after the other,
   * provided the first part takes no positional argument.
   */
  lemma FormatAppend(a: string, b: string, args: seq<Value>, kwargs: map<string, Value>)
    requires Format(a, args, kwargs).Ok?
    requires args == [] || AutoCount(Scan(a).pieces) == 0
    ensures Format(a + b, args, kwargs) == Prepend(Format(a, args, kwargs).value, Format(b, args, kwargs))
  {
    var sa := Scan(a);
    SubstituteOkIff(sa.pieces, sa.complete, args, kwargs, 0);
    ScanAppend(a, b);
    SubstituteAppend(sa.pieces, Scan(b).pieces, Scan(b).complete, args, kwargs, 0);
  }

  /** A string without braces formats to itself and takes no argument. */
  lemma {:induction false} FormatPlain(s: string, args: seq<Value>, kwargs: map<string, Value>)
    requires NoBraces(s)
    ensures Format(s, args, kwargs) == Ok(s)
    ensures Scan(s).complete && Names(Scan(s).pieces) == {} && AutoCount(Scan(s).pieces) == 0
    decreases |s|
  {
    if s != [] {
      FormatPlain(s[1..], args, kwargs);
      var c := [s[0]];
      assert c[1..] == [];
      assert Scan(c) == Push(Literal(s[0]), Scan([]));
      assert Scan(c).pieces == [Literal(s[0])] && Scan(c).complete;
      assert Substitute([Literal(s[0])], true, args, kwargs, 0) == Prepend(c, Substitute([], true, args, kwargs, 0));
      assert c + "" == c;
      assert Format(c, args, kwargs) == Ok(c);
      FormatAppend(c, s[1..], args, kwargs);
      ScanAppend(c, s[1..]);
      assert c + s[1..] == s;
      assert Scan(s).pieces == [Literal(s[0])] + Scan(s[1..]).pieces;
      assert Scan(s).pieces[1..] == Scan(s[1..]).pieces;
    }
  }

  /** A `{name}` field is read as one named piece. */
  lemma ScanField(name: string)
    requires NoBraces(name) && name != ""
    ensures Scan(Field(name)) == Scanned([Named(name)], true)
  {
    var f := Field(name);
    assert f[0] == '{' && f[1] == name[0] && name[0] != '{';
    assert f[1..] == name + "}";
    IndexOfEnd(name);
    assert f[1..|name| + 1] == name;
    assert f[|name| + 2..] == [];
    assert Lead(f) == Some((Named(name), |name| + 2));
    assert Scan(f) == Push(Named(name), Scan([]));
  }

  /** A single `{name}` field formats to the rendered keyword argument. */
  lemma FormatField(name: string, kwargs: map<string, Value>)
    requires NoBraces(name) && name != "" && name in kwargs
    ensures Format(Field(name), [], kwargs) == Ok(Render(kwargs[name]))
  {
    ScanField(name);
    assert Substitute([Named(name)], true, [], kwargs, 0) == Prepend(Render(kwargs[name]), Substitute([], true, [], kwargs, 0));
    assert Render(kwargs[name]) + "" == Render(kwargs[name]);
  }

  lemma {:induction false} NamesAppend(p: seq<Piece>, q: seq<Piece>)
    ensures Names(p + q) == Names(p) + Names(q)
    ensures AutoCount(p + q) == AutoCount(p) + AutoCount(q)
    decreases |p|
  {
    if p == [] {
      assert p + q == q;
    } else {
      assert (p + q)[0] == p[0];
      assert (p + q)[1..] == p[1..] + q;
      NamesAppend(p[1..], q);
    }
  }

  /** A literal prefix followed by a `{name}` field and the rest of the template. */
  lemma FormatLiteralField(literal: string, name: string, rest: string, kwargs: map<string, Value>)
    requires NoBraces(literal) && NoBraces(name) && name != "" && name in kwargs
    ensures Format(literal + Field(name) + rest, [], kwargs)
         == Prepend(literal + Render(kwargs[name]), Format(rest, [], kwargs))
  {
    FormatPlain(literal, [], kwargs);
    FormatField(name, kwargs);
    FormatAppend(literal, Field(name), [], kwargs);
    FormatAppend(literal + Field(name), rest, [], kwargs);
  }

  /** A fragment made of a literal prefix and one `{name}` field, such as `-t {lib_path}`. */
  lemma FormatFragment(literal: string, name: string, kwargs: map<string, Value>)
    requires NoBraces(literal) && NoBraces(name) && name != "" && name in kwargs
    ensures Format(literal + Field(name), [], kwargs) == Ok(literal + Render(kwargs[name]))
  {
    FormatPlain(literal, [], kwargs);
    FormatField(name, kwargs);
    FormatAppend(literal, Field(name), [], kwargs);
  }

  /** A single `{}` field formats to the first positional argument. */
  lemma FormatAuto(arg: Value, kwargs: map<string, Value>)
    ensures Format("{}", [arg], kwargs) == Ok(Render(arg))
  {
    var f := "{}";
    assert f[1..] == "}";
    assert f[2..] == [];
    assert Lead(f) == Some((Auto, 2));
    assert Scan(f) == Push(Auto, Scan([]));
    assert Scan(f).pieces == [Auto] && Scan(f).complete;
    assert Substitute([Auto], true, [arg], kwargs, 0) == Prepend(Render(arg), Substitute([], true, [arg], kwargs, 1));
    assert Render(arg) + "" == Render(arg);
  }

  /** A literal prefix followed by one `{}` field, as in `'rm -rf {}'.format(x)`. */
  lemma FormatLiteralAuto(literal: string, arg: Value, kwargs: map<string, Value>)
    requires NoBraces(literal)
    ensures Format(literal + "{}", [arg], kwargs) == Ok(literal + Render(arg))
  {
    FormatPlain(literal, [arg], kwargs);
    FormatAuto(arg, kwargs);
    FormatAppend(literal, "{}", [arg], kwargs);
  }

  /**
   * Composition distributes over the fragments: when each fragment formats on
   * its own, the joined command is the join of the formatted fragments.
   */
  lemma {:induction false} ComposeFragments(fragments: seq<string>, formatted: seq<string>, options: map<string, Value>)
    requires |fragments| == |formatted|
    requires forall i :: 0 <= i < |fragments| ==> Format(fragments[i], [], options) == Ok(formatted[i])
    ensures Compose(fragments, options) == Ok(Join(formatted))
    decreases |fragments|
  {
    if |fragments| == 0 {
      assert Scan("") == Scanned([], true);
    } else if |fragments| > 1 {
      var tail, formattedTail := Join(fragments[1..]), Join(formatted[1..]);
      ComposeFragments(fragments[1..], formatted[1..], options);
      FormatPlain(" ", [], options);
      FormatAppend(" ", tail, [], options);
      FormatAppend(fragments[0], " " + tail, [], options);
      JoinStep(fragments);
      JoinStep(formatted);
    }
  }

  lemma JoinStep(fragments: seq<string>)
    requires |fragments| > 1
    ensures Join(fragments) == fragments[0] + (" " + Join(fragments[1..]))
  {
  }
}
