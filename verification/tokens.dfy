/**
 * The header chain tokenizer (mod_incapsula.c:354-375): the header value is read
 * right to left, one comma-separated field at a time, and each field is stripped
 * of the space character (and only that character) at both ends.
 */
module Tokens {
  import opened Wrappers

  predicate AllSpaces(s: string) {
    forall i :: 0 <= i < |s| ==> s[i] == ' '
  }

  /** Index of the first comma of `s`, if any. */
  function FirstComma(s: string): (k: Option<nat>)
    ensures k.None? <==> ',' !in s
    ensures k.Some? ==> k.value < |s| && s[k.value] == ',' && ',' !in s[..k.value]
  {
    if |s| == 0 then None
    else if s[0] == ',' then Some(0)
    else
      match FirstComma(s[1..])
      case None => None
      case Some(j) =>
        assert s[..j + 1] == [s[0]] + s[1..][..j];
        Some(j + 1)
  }

  /** A comma with no comma before it is the first comma. */
  lemma {:induction false} FirstCommaAt(s: string, k: nat)
    requires k < |s| && s[k] == ',' && ',' !in s[..k]
    ensures FirstComma(s) == Some(k)
  {
    assert s[k] in s;
    var j := FirstComma(s).value;
    assert forall i :: 0 <= i < k ==> s[i] == s[..k][i] != ',';
    assert forall i :: 0 <= i < j ==> s[i] == s[..j][i] != ',';
  }

  /** Index of the last comma of `s`, if any (strrchr). */
  function LastComma(s: string): (k: Option<nat>)
    ensures k.None? <==> ',' !in s
    ensures k.Some? ==> k.value < |s| && s[k.value] == ',' && ',' !in s[k.value + 1..]
  {
    if |s| == 0 then None
    else if s[|s| - 1] == ',' then Some(|s| - 1)
    else
      var init := s[..|s| - 1];
      match LastComma(init)
      case None =>
        assert s == init + [s[|s| - 1]];
        None
      case Some(j) =>
        assert s[j + 1..] == init[j + 1..] + [s[|s| - 1]];
        Some(j)
  }

  /**
   * One cut of the cursor: the part before the last comma, if there is a comma
   * (otherwise the cursor is exhausted), and the raw field after it.
   */
  datatype Cut = Cut(rest: Option<string>, raw: string)

  /** The string a cut was taken from: the comma put back between the two parts. */
  function Rejoin(c: Cut): string {
    match c.rest
    case None => c.raw
    case Some(r) => r + "," + c.raw
  }

  /** Split the remaining header at its last comma (mod_incapsula.c:354-360). */
  function Pop(s: string): (c: Cut)
    ensures Rejoin(c) == s
    ensures ',' !in c.raw
    ensures c.rest.None? <==> ',' !in s
    ensures c.rest.Some? ==> |c.rest.value| < |s|
  {
    match LastComma(s)
    case None => Cut(None, s)
    case Some(k) =>
      assert s == s[..k] + "," + s[k + 1..];
      Cut(Some(s[..k]), s[k + 1..])
  }

  /** A string has only one decomposition around its last comma. */
  lemma {:induction false} PopUnique(s: string, r: string, raw: string)
    requires s == r + "," + raw && ',' !in raw
    ensures Pop(s) == Cut(Some(r), raw)
  {
    assert s[|r|] == ',' && s[|r| + 1..] == raw;
    LastCommaAt(s, |r|);
    assert s[..|r|] == r;
  }

  /** A comma with no comma after it is the last comma. */
  lemma {:induction false} LastCommaAt(s: string, k: nat)
    requires k < |s| && s[k] == ',' && ',' !in s[k + 1..]
    ensures LastComma(s) == Some(k)
  {
    assert s[k] in s;
    var j := LastComma(s).value;
    assert forall i :: k < i < |s| ==> s[i] == s[k + 1..][i - k - 1] != ',';
    assert forall i :: j < i < |s| ==> s[i] == s[j + 1..][i - j - 1] != ',';
  }

  /** Drop the leading spaces (mod_incapsula.c:362-363). */
  function TrimLeft(s: string): (t: string)
    ensures s == [] || s[0] != ' ' ==> t == s
    decreases |s|
  {
    if |s| > 0 && s[0] == ' ' then TrimLeft(s[1..]) else s
  }

  /** Drop the trailing spaces (mod_incapsula.c:365-367). */
  function TrimRight(s: string): (t: string)
    ensures s == [] || s[|s| - 1] != ' ' ==> t == s
    decreases |s|
  {
    if |s| > 0 && s[|s| - 1] == ' ' then TrimRight(s[..|s| - 1]) else s
  }

  /** TrimLeft removes a run of spaces at the front and nothing else. */
  lemma {:induction false} TrimLeftShape(s: string)
    ensures var t := TrimLeft(s);
      && |t| <= |s| && t == s[|s| - |t|..]
      && AllSpaces(s[..|s| - |t|])
      && (t == [] || t[0] != ' ')
      && (t == [] <==> AllSpaces(s))
    decreases |s|
  {
    if |s| > 0 && s[0] == ' ' {
      TrimLeftShape(s[1..]);
      var t := TrimLeft(s);
      assert s[..|s| - |t|] == [' '] + s[1..][..|s| - 1 - |t|];
      assert AllSpaces(s) <==> AllSpaces(s[1..]);
    }
  }

  /** TrimRight removes a run of spaces at the back and nothing else. */
  lemma {:induction false} TrimRightShape(s: string)
    ensures var t := TrimRight(s);
      && |t| <= |s| && t == s[..|t|]
      && AllSpaces(s[|t|..])
      && (t == [] || t[|t| - 1] != ' ')
      && (t == [] <==> AllSpaces(s))
    decreases |s|
  {
    if |s| > 0 && s[|s| - 1] == ' ' {
      var init := s[..|s| - 1];
      TrimRightShape(init);
      var t := TrimRight(s);
      assert s[|t|..] == init[|t|..] + [' '];
      assert AllSpaces(s) <==> AllSpaces(init);
    }
  }

  /** The token a field stands for: spaces dropped at both ends. */
  function Trim(s: string): (t: string)
    ensures s != [] && s[0] != ' ' && s[|s| - 1] != ' ' ==> t == s
  {
    TrimRight(TrimLeft(s))
  }

  /**
   * Trim removes a run of spaces at each end and nothing else: the token is a
   * slice of the field with only spaces around it, and has no space at either
   * end.
   */
  lemma {:induction false} TrimShape(s: string)
    ensures var t := Trim(s);
      && (exists i :: 0 <= i <= |s| - |t| && t == s[i..i + |t|]
           && AllSpaces(s[..i]) && AllSpaces(s[i + |t|..]))
      && (t == [] || (t[0] != ' ' && t[|t| - 1] != ' '))
  {
    TrimLeftShape(s);
    var l := TrimLeft(s);
    TrimRightShape(l);
    var t := Trim(s);
    var i := |s| - |l|;
    assert l == s[i..] && t == l[..|t|];
    assert t == s[i..i + |t|] && s[i + |t|..] == l[|t|..];
    assert AllSpaces(s[..i]) && AllSpaces(s[i + |t|..]);
    assert t != [] ==> t[0] == l[0];
  }

  /** A field trims to nothing exactly when it is made of spaces only. */
  lemma TrimBlank(s: string)
    ensures Trim(s) == [] <==> AllSpaces(s)
  {
    TrimLeftShape(s);
    TrimRightShape(TrimLeft(s));
  }

  /** The fields of `s`: the pieces between its commas, read left to right. */
  function Fields(s: string): (fs: seq<string>)
    ensures |fs| >= 1
    ensures forall i :: 0 <= i < |fs| ==> ',' !in fs[i]
    decreases |s|
  {
    match FirstComma(s)
    case None => [s]
    case Some(k) => [s[..k]] + Fields(s[k + 1..])
  }

  /** The fields put back together with a comma between neighbours. */
  function JoinFields(fs: seq<string>): string
    requires |fs| >= 1
  {
    if |fs| == 1 then fs[0] else JoinFields(fs[..|fs| - 1]) + "," + fs[|fs| - 1]
  }

  /** Appending a last field to a header without commas gives two fields. */
  lemma FieldsAppendSingle(a: string, b: string)
    requires ',' !in a && ',' !in b
    ensures Fields(a + "," + b) == [a, b]
  {
    var s := a + "," + b;
    assert s[|a|] == ',' && s[..|a|] == a;
    FirstCommaAt(s, |a|);
    assert s[|a| + 1..] == b;
  }

  /** One step of the split: the field before the first comma, then the fields after it. */
  lemma FieldsAt(s: string, k: nat)
    requires FirstComma(s) == Some(k)
    ensures Fields(s) == [s[..k]] + Fields(s[k + 1..])
  {
  }

  /** Appending a field does not move the first comma of a header that has one. */
  lemma FieldsAppendHead(a: string, b: string, k: nat)
    requires FirstComma(a) == Some(k)
    ensures Fields(a + "," + b) == [a[..k]] + Fields(a[k + 1..] + "," + b)
  {
    var s := a + "," + b;
    assert FirstComma(s) == Some(k) by {
      assert s[..k] == a[..k] && s[k] == a[k];
      FirstCommaAt(s, k);
    }
    assert s[..k] == a[..k] && s[k + 1..] == a[k + 1..] + "," + b;
    FieldsAt(s, k);
  }

  /** Appending a comma and a field to a header appends that field to its fields. */
  lemma {:induction false} FieldsAppend(a: string, b: string)
    requires ',' !in b
    ensures Fields(a + "," + b) == Fields(a) + [b]
    decreases |a|
  {
    match FirstComma(a)
    case None =>
      FieldsAppendSingle(a, b);
    case Some(k) =>
      FieldsAppendHead(a, b, k);
      FieldsAppend(a[k + 1..], b);
  }

  /** The field the tokenizer cuts off is the last field; the rest are the others. */
  lemma PopIsLastField(s: string)
    ensures Fields(s) == (match Pop(s).rest
                          case None => []
                          case Some(r) => Fields(r)) + [Pop(s).raw]
  {
    var c := Pop(s);
    match c.rest
    case None =>
    case Some(r) => FieldsAppend(r, c.raw);
  }

  /** Joining the fields gives the header back: nothing is lost by splitting. */
  lemma {:induction false} FieldsRoundTrip(s: string)
    ensures JoinFields(Fields(s)) == s
    decreases |s|
  {
    var c := Pop(s);
    PopIsLastField(s);
    match c.rest
    case None =>
    case Some(r) =>
      FieldsRoundTrip(r);
      var fs := Fields(s);
      assert fs[..|fs| - 1] == Fields(r);
  }
}
