/** Offer letters: filling the {{field}} holes of a letter template by one replaceAll per field.
    The sequential loop is compared with the substitution a reader has in mind: every hole filled
    at once, each with its own field. */
module OfferLetter {
  import opened Options

  // The entries of the merge fields in their own order; a field may be null.
  type Fields = seq<(string, Option<string>)>

  // ---------------------------------------------------------------- replaceAll

  predicate IsPattern(s: string, i: nat) {
    i + 1 < |s| && s[i] == '$' && s[i + 1] in "$&`'"
  }

  // The text that stands in for one match: ECMA-262 section 22.1.3.19.1 (GetSubstitution) for a
  // match without captures, where only $$, $&, $` and $' are special.
  function GetSubstitution(matched: string, before: string, after: string, replacement: string): string {
    if |replacement| == 0 then []
    else if IsPattern(replacement, 0) then
      (match replacement[1]
       case '$' => "$"
       case '&' => matched
       case '`' => before
       case _ => after)
      + GetSubstitution(matched, before, after, replacement[2..])
    else [replacement[0]] + GetSubstitution(matched, before, after, replacement[1..])
  }

  // String.prototype.replaceAll, `before` being scanned already: leftmost matches, none overlapping.
  function ReplaceFrom(before: string, rest: string, search: string, replacement: string): string
    requires |search| > 0
    decreases |rest|
  {
    if |rest| == 0 then []
    else if search <= rest then
      GetSubstitution(search, before, rest[|search|..], replacement)
      + ReplaceFrom(before + search, rest[|search|..], search, replacement)
    else [rest[0]] + ReplaceFrom(before + [rest[0]], rest[1..], search, replacement)
  }

  function ReplaceAll(str: string, search: string, replacement: string): string
    requires |search| > 0
  {
    ReplaceFrom("", str, search, replacement)
  }

  function Tag(key: string): string {
    "{{" + key + "}}"
  }

  function Merged(template: string, fields: Fields): string
    decreases |fields|
  {
    if |fields| == 0 then template
    else match fields[0].1
      case None => Merged(template, fields[1..])
      case Some(value) => Merged(ReplaceAll(template, Tag(fields[0].0), value), fields[1..])
  }

  method MergeOfferLetterTemplate(template: string, fields: Fields) returns (out: string)
    ensures out == Merged(template, fields)
  {
    out := template;
    for i := 0 to |fields|
      invariant Merged(out, fields[i..]) == Merged(template, fields)
    {
      var (key, value) := fields[i];
      assert fields[i..][0] == fields[i] && fields[i..][1..] == fields[i + 1..];
      if value.Some? {
        out := ReplaceAll(out, Tag(key), value.value);
      }
    }
  }

  // ---------------------------------------------------------------- templates and their meaning

  datatype Segment = Text(text: string) | Hole(key: string)

  predicate BraceFree(s: string) {
    forall i :: 0 <= i < |s| ==> s[i] != '{' && s[i] != '}'
  }

  predicate OpensNothing(s: string) {
    forall i :: 0 <= i < |s| ==> s[i] != '{'
  }

  // Text in which no hole begins, and holes; closing braces may stand anywhere in the text.
  predicate WellFormed(segs: seq<Segment>) {
    forall i :: 0 <= i < |segs| ==>
      match segs[i] case Text(t) => OpensNothing(t) case Hole(k) => BraceFree(k)
  }

  function RenderOne(seg: Segment): string {
    match seg case Text(t) => t case Hole(k) => Tag(k)
  }

  function Render(segs: seq<Segment>): string {
    if |segs| == 0 then [] else RenderOne(segs[0]) + Render(segs[1..])
  }

  // Every hole filled at once; a hole without a value stays as it is.
  function Fill(segs: seq<Segment>, values: map<string, string>): string {
    if |segs| == 0 then []
    else
      (match segs[0]
       case Text(t) => t
       case Hole(k) => if k in values then values[k] else Tag(k))
      + Fill(segs[1..], values)
  }

  function Values(fields: Fields): map<string, string> {
    if |fields| == 0 then map[]
    else
      var rest := Values(fields[1..]);
      match fields[0].1
      case None => rest
      case Some(value) => rest[fields[0].0 := value]
  }

  // What an object with brace-free names, and values without an opening brace, gives.
  ghost predicate FieldsOk(fields: Fields) {
    && (forall i :: 0 <= i < |fields| ==> BraceFree(fields[i].0))
    && (forall i :: 0 <= i < |fields| && fields[i].1.Some? ==> OpensNothing(fields[i].1.value))
    && (forall i, j :: 0 <= i < j < |fields| ==> fields[i].0 != fields[j].0)
  }

  // No special replacement pattern anywhere in the value.
  ghost predicate Plain(value: string) {
    forall i: nat :: !IsPattern(value, i)
  }

  ghost predicate AllPlain(fields: Fields) {
    forall i :: 0 <= i < |fields| && fields[i].1.Some? ==> Plain(fields[i].1.value)
  }

  // ---------------------------------------------------------------- scanning a template

  lemma {:induction false} PlainIsLiteral(matched: string, before: string, after: string, v: string)
    requires Plain(v)
    ensures GetSubstitution(matched, before, after, v) == v
  {
    if |v| != 0 {
      assert !IsPattern(v, 0);
      forall i: nat ensures !IsPattern(v[1..], i) {
        assert !IsPattern(v, i + 1);
      }
      PlainIsLiteral(matched, before, after, v[1..]);
    }
  }

  // A tag begins with two braces, so it matches only where two braces stand.
  ghost predicate TwoBraces(s: string) {
    |s| >= 2 && s[0] == '{' && s[1] == '{'
  }

  lemma {:induction false} SkipUnmatched(before: string, skipped: string, after: string, key: string, rep: string)
    requires forall i :: 0 <= i < |skipped| ==> !TwoBraces((skipped + after)[i..])
    ensures ReplaceFrom(before, skipped + after, Tag(key), rep)
         == skipped + ReplaceFrom(before + skipped, after, Tag(key), rep)
    decreases |skipped|
  {
    if |skipped| == 0 {
      assert skipped + after == after && before + skipped == before;
    } else {
      var s := skipped + after;
      assert !TwoBraces(s[0..]);
      assert s[1..] == skipped[1..] + after;
      forall i | 0 <= i < |skipped[1..]| ensures !TwoBraces((skipped[1..] + after)[i..]) {
        assert (skipped[1..] + after)[i..] == s[i + 1..];
      }
      SkipUnmatched(before + [s[0]], skipped[1..], after, key, rep);
      assert before + [s[0]] + skipped[1..] == before + skipped;
      assert [s[0]] + skipped[1..] == skipped;
    }
  }

  lemma ScanText(before: string, text: string, after: string, key: string, value: string)
    requires OpensNothing(text)
    ensures ReplaceFrom(before, text + after, Tag(key), value)
         == text + ReplaceFrom(before + text, after, Tag(key), value)
  {
    SkipUnmatched(before, text, after, key, value);
  }

  // A tag matches at a hole only if it is the hole's own.
  lemma HoleMatchesOwnTag(hole: string, after: string, key: string)
    requires BraceFree(hole) && BraceFree(key) && Tag(key) <= Tag(hole) + after
    ensures hole == key
  {
    var s := Tag(hole) + after;
    var n := if |hole| < |key| then |hole| else |key|;
    assert Tag(hole)[n + 2] == s[n + 2] == Tag(key)[n + 2];
    assert |hole| == |key|;
    forall i | 0 <= i < |key| ensures hole[i] == key[i] {
      assert Tag(hole)[i + 2] == s[i + 2] == Tag(key)[i + 2];
    }
  }

  lemma ScanOtherHole(before: string, hole: string, after: string, key: string, value: string)
    requires BraceFree(hole) && BraceFree(key) && hole != key
    ensures ReplaceFrom(before, Tag(hole) + after, Tag(key), value)
         == Tag(hole) + ReplaceFrom(before + Tag(hole), after, Tag(key), value)
  {
    var s := Tag(hole) + after;
    if Tag(key) <= s { HoleMatchesOwnTag(hole, after, key); }
    var inside := "{" + hole + "}}";
    assert Tag(hole) == ['{'] + inside;
    assert s == ['{'] + (inside + after) && s[1..] == inside + after;
    forall i | 0 <= i < |inside| ensures !TwoBraces((inside + after)[i..]) {
      InsideHole(hole, after, i);
    }
    SkipUnmatched(before + ['{'], inside, after, key, value);
    assert before + ['{'] + inside == before + Tag(hole);
  }

  lemma InsideHole(hole: string, after: string, i: nat)
    requires BraceFree(hole) && i < |hole| + 3
    ensures !TwoBraces(("{" + hole + "}}" + after)[i..])
  {
    var s := "{" + hole + "}}" + after;
    if i == 0 {
      assert s[1] == (hole + "}}")[0];
    } else if i <= |hole| {
      assert s[i] == hole[i - 1];
    }
  }

  lemma ScanOwnHole(before: string, after: string, key: string, value: string)
    requires Plain(value)
    ensures ReplaceFrom(before, Tag(key) + after, Tag(key), value)
         == value + ReplaceFrom(before + Tag(key), after, Tag(key), value)
  {
    assert (Tag(key) + after)[|Tag(key)|..] == after;
    PlainIsLiteral(Tag(key), before, after, value);
  }

  function SubstOne(seg: Segment, key: string, value: string): Segment {
    if seg == Hole(key) then Text(value) else seg
  }

  function Subst(segs: seq<Segment>, key: string, value: string): seq<Segment> {
    if |segs| == 0 then []
    else [SubstOne(segs[0], key, value)] + Subst(segs[1..], key, value)
  }

  lemma ScanOne(before: string, seg: Segment, after: string, key: string, value: string)
    requires WellFormed([seg]) && BraceFree(key)
    requires seg == Hole(key) ==> Plain(value)
    ensures ReplaceFrom(before, RenderOne(seg) + after, Tag(key), value)
         == RenderOne(SubstOne(seg, key, value)) + ReplaceFrom(before + RenderOne(seg), after, Tag(key), value)
  {
    assert [seg][0] == seg;
    match seg
    case Text(t) => ScanText(before, t, after, key, value);
    case Hole(h) =>
      if h == key { ScanOwnHole(before, after, key, value); } else { ScanOtherHole(before, h, after, key, value); }
  }

  // One replaceAll fills exactly the holes of its key.  Where the key has no hole, the value may
  // be anything at all.
  lemma {:induction false} ReplaceFromIsSubst(before: string, segs: seq<Segment>, key: string, value: string)
    requires WellFormed(segs) && BraceFree(key)
    requires Hole(key) in segs ==> Plain(value)
    ensures ReplaceFrom(before, Render(segs), Tag(key), value) == Render(Subst(segs, key, value))
    decreases |segs|
  {
    if |segs| != 0 {
      assert WellFormed([segs[0]]) && WellFormed(segs[1..]);
      ScanOne(before, segs[0], Render(segs[1..]), key, value);
      ReplaceFromIsSubst(before + RenderOne(segs[0]), segs[1..], key, value);
      assert Subst(segs, key, value)[1..] == Subst(segs[1..], key, value);
    }
  }

  lemma ReplaceAllIsSubst(segs: seq<Segment>, key: string, value: string)
    requires WellFormed(segs) && BraceFree(key)
    requires Hole(key) in segs ==> Plain(value)
    ensures ReplaceAll(Render(segs), Tag(key), value) == Render(Subst(segs, key, value))
  {
    ReplaceFromIsSubst("", segs, key, value);
  }

  // ---------------------------------------------------------------- the loop against the meaning

  lemma {:induction false} SubstWellFormed(segs: seq<Segment>, key: string, value: string)
    requires WellFormed(segs) && OpensNothing(value)
    ensures WellFormed(Subst(segs, key, value)) && |Subst(segs, key, value)| == |segs|
  {
    if |segs| != 0 {
      assert WellFormed(segs[1..]);
      SubstWellFormed(segs[1..], key, value);
    }
  }

  lemma {:induction false} FillAfterSubst(segs: seq<Segment>, key: string, value: string, values: map<string, string>)
    requires key !in values
    ensures Fill(Subst(segs, key, value), values) == Fill(segs, values[key := value])
  {
    if |segs| != 0 {
      FillAfterSubst(segs[1..], key, value, values);
      assert Subst(segs, key, value)[1..] == Subst(segs[1..], key, value);
    }
  }

  lemma {:induction false} FillNothing(segs: seq<Segment>)
    ensures Fill(segs, map[]) == Render(segs)
  {
    if |segs| != 0 { FillNothing(segs[1..]); }
  }

  lemma {:induction false} ValuesHaveFieldKeys(fields: Fields, key: string)
    requires key in Values(fields)
    ensures exists i :: 0 <= i < |fields| && fields[i] == (key, Some(Values(fields)[key]))
  {
    if |fields| != 0 {
      if fields[0].0 == key && fields[0].1.Some? {
        assert fields[0] == (key, Some(Values(fields)[key]));
      } else {
        ValuesHaveFieldKeys(fields[1..], key);
        var i :| 0 <= i < |fields[1..]| && fields[1..][i] == (key, Some(Values(fields[1..])[key]));
        assert fields[i + 1] == (key, Some(Values(fields)[key]));
      }
    }
  }

  lemma {:induction false} NoFieldNoValue(fields: Fields, key: string)
    requires forall i :: 0 <= i < |fields| ==> fields[i].0 != key
    ensures key !in Values(fields)
  {
    if |fields| != 0 {
      assert forall i :: 0 <= i < |fields[1..]| ==> fields[1..][i] == fields[i + 1];
      NoFieldNoValue(fields[1..], key);
    }
  }

  lemma {:induction false} SequentialIsSimultaneous(segs: seq<Segment>, fields: Fields)
    requires WellFormed(segs) && FieldsOk(fields) && AllPlain(fields)
    ensures Merged(Render(segs), fields) == Fill(segs, Values(fields))
    decreases |fields|
  {
    if |fields| == 0 {
      FillNothing(segs);
    } else {
      var (key, rest) := (fields[0].0, fields[1..]);
      assert fields[0].0 == key;
      assert FieldsOk(rest) && AllPlain(rest) by {
        assert forall i :: 0 <= i < |rest| ==> rest[i] == fields[i + 1];
      }
      match fields[0].1
      case None =>
        SequentialIsSimultaneous(segs, rest);
      case Some(value) =>
        ReplaceAllIsSubst(segs, key, value);
        SubstWellFormed(segs, key, value);
        SequentialIsSimultaneous(Subst(segs, key, value), rest);
        NoFieldNoValue(rest, key);
        FillAfterSubst(segs, key, value, Values(rest));
    }
  }

  // ---------------------------------------------------------------- where the meaning is missed

  // What the pattern characters of a value turn into at a hole that is the whole template.
  function ExpandSegs(v: string, key: string): seq<Segment> {
    if |v| == 0 then []
    else if IsPattern(v, 0) then
      (match v[1] case '$' => [Text("$")] case '&' => [Hole(key)] case _ => []) + ExpandSegs(v[2..], key)
    else [Text([v[0]])] + ExpandSegs(v[1..], key)
  }

  lemma {:induction false} ExpandIsSubstitution(v: string, key: string)
    requires OpensNothing(v) && BraceFree(key)
    ensures GetSubstitution(Tag(key), "", "", v) == Render(ExpandSegs(v, key))
    ensures WellFormed(ExpandSegs(v, key))
    ensures forall k :: Hole(k) in ExpandSegs(v, key) ==> k == key
  {
    if |v| != 0 {
      var n := if IsPattern(v, 0) then 2 else 1;
      ExpandIsSubstitution(v[n..], key);
      var head := if IsPattern(v, 0)
        then (match v[1] case '$' => [Text("$")] case '&' => [Hole(key)] case _ => []) else [Text([v[0]])];
      var tail := ExpandSegs(v[n..], key);
      assert ExpandSegs(v, key) == head + tail;
      if |head| == 1 {
        assert (head + tail)[1..] == tail;
      } else {
        assert head + tail == tail;
      }
    }
  }

  // A value with a pattern never comes out as itself: a copied tag brings braces, and every other
  // pattern comes out shorter.
  lemma ExpandChanges(v: string, key: string)
    requires OpensNothing(v)
    ensures Render(ExpandSegs(v, key)) == v ==> Plain(v)
  {
    if OpensNothing(Render(ExpandSegs(v, key))) {
      ExpandShrinks(v, key);
    }
  }

  lemma ExpandStep(v: string, key: string)
    requires |v| > 0
    ensures IsPattern(v, 0) && v[1] == '&' ==> !OpensNothing(Render(ExpandSegs(v, key)))
    ensures !(IsPattern(v, 0) && v[1] == '&') ==>
      exists head ::
        && Render(ExpandSegs(v, key)) == head + Render(ExpandSegs(v[if IsPattern(v, 0) then 2 else 1..], key))
        && |head| <= 1
  {
    var all := ExpandSegs(v, key);
    var tail := ExpandSegs(v[if IsPattern(v, 0) then 2 else 1..], key);
    if IsPattern(v, 0) && v[1] == '&' {
      assert all[0] == Hole(key);
      assert Render(all)[0] == '{';
    } else if |all| == |tail| {
      assert all == tail;
      assert Render(all) == [] + Render(tail);
    } else {
      assert all[1..] == tail;
      assert Render(all) == all[0].text + Render(tail);
    }
  }

  lemma {:induction false} ExpandShrinks(v: string, key: string)
    requires OpensNothing(Render(ExpandSegs(v, key)))
    ensures |Render(ExpandSegs(v, key))| <= |v|
    ensures |Render(ExpandSegs(v, key))| == |v| ==> Plain(v)
  {
    if |v| != 0 {
      var n := if IsPattern(v, 0) then 2 else 1;
      ExpandStep(v, key);
      var out, tail := Render(ExpandSegs(v, key)), Render(ExpandSegs(v[n..], key));
      var head :| out == head + tail && |head| <= 1;
      assert forall i :: 0 <= i < |tail| ==> tail[i] == out[|head| + i];
      ExpandShrinks(v[n..], key);
      if |out| == |v| {
        forall i: nat ensures !IsPattern(v, i) {
          if i > 0 { assert !IsPattern(v[1..], i - 1); }
        }
      }
    }
  }

  // Fields other than the key leave the text of such a hole alone.
  lemma {:induction false} OthersLeaveAlone(segs: seq<Segment>, key: string, fields: Fields)
    requires WellFormed(segs) && forall k :: Hole(k) in segs ==> k == key
    requires forall i :: 0 <= i < |fields| ==> BraceFree(fields[i].0) && fields[i].0 != key
    ensures Merged(Render(segs), fields) == Render(segs)
    decreases |fields|
  {
    if |fields| != 0 {
      if fields[0].1.Some? {
        ReplaceAllIsSubst(segs, fields[0].0, fields[0].1.value);
        SubstAbsent(segs, fields[0].0, fields[0].1.value);
      }
      assert forall i :: 0 <= i < |fields[1..]| ==> fields[1..][i] == fields[i + 1];
      OthersLeaveAlone(segs, key, fields[1..]);
    }
  }

  lemma {:induction false} SubstAbsent(segs: seq<Segment>, key: string, value: string)
    requires Hole(key) !in segs
    ensures Subst(segs, key, value) == segs
  {
    if |segs| != 0 {
      SubstAbsent(segs[1..], key, value);
    }
  }

  lemma {:induction false} MergedSplits(template: string, a: Fields, b: Fields)
    ensures Merged(template, a + b) == Merged(Merged(template, a), b)
    decreases |a|
  {
    if |a| == 0 {
      assert a + b == b;
    } else {
      assert (a + b)[1..] == a[1..] + b;
      MergedSplits(if a[0].1.Some? then ReplaceAll(template, Tag(a[0].0), a[0].1.value) else template, a[1..], b);
    }
  }

  lemma TagReplacedByItself(key: string, v: string)
    requires OpensNothing(v) && BraceFree(key)
    ensures ReplaceAll(Tag(key), Tag(key), v) == Render(ExpandSegs(v, key))
  {
    var tag := Tag(key);
    assert tag[|tag|..] == [];
    assert ReplaceFrom("", tag, tag, v) == GetSubstitution(tag, "", "", v) + ReplaceFrom("" + tag, [], tag, v);
    ExpandIsSubstitution(v, key);
  }

  // A template that is one hole gets the expansion of its field's value.
  lemma SingleHoleGetsExpansion(before: Fields, key: string, v: string, after: Fields)
    requires FieldsOk(before + [(key, Some(v))] + after)
    ensures Merged(Tag(key), before + [(key, Some(v))] + after) == Render(ExpandSegs(v, key))
  {
    var fields := before + [(key, Some(v))] + after;
    assert fields[|before|] == (key, Some(v));
    assert forall i :: 0 <= i < |before| ==> before[i] == fields[i];
    assert forall i :: 0 <= i < |after| ==> after[i] == fields[|before| + 1 + i];
    RenderHole(key);
    OthersLeaveAlone([Hole(key)], key, before);
    MergedSplits(Tag(key), before, [(key, Some(v))] + after);
    assert before + [(key, Some(v))] + after == before + ([(key, Some(v))] + after);
    TagReplacedByItself(key, v);
    MergedOne(Tag(key), key, v, after);
    ExpandIsSubstitution(v, key);
    OthersLeaveAlone(ExpandSegs(v, key), key, after);
  }

  lemma RenderHole(key: string)
    ensures Render([Hole(key)]) == Tag(key)
  {
    assert [Hole(key)][1..] == [];
  }

  lemma MergedOne(template: string, key: string, v: string, after: Fields)
    ensures Merged(template, [(key, Some(v))] + after) == Merged(ReplaceAll(template, Tag(key), v), after)
  {
    assert ([(key, Some(v))] + after)[1..] == after;
  }

  /** The loop means "fill every hole at once" on every well-formed template exactly when no value
      contains $$, $&, $` or $': replaceAll reads those as patterns, not as text. */
  lemma FaithfulIff(fields: Fields)
    requires FieldsOk(fields)
    ensures (forall segs :: WellFormed(segs) ==> Merged(Render(segs), fields) == Fill(segs, Values(fields)))
       <==> AllPlain(fields)
  {
    if AllPlain(fields) {
      forall segs | WellFormed(segs) ensures Merged(Render(segs), fields) == Fill(segs, Values(fields)) {
        SequentialIsSimultaneous(segs, fields);
      }
    } else {
      var i :| 0 <= i < |fields| && fields[i].1.Some? && !Plain(fields[i].1.value);
      var (key, v) := (fields[i].0, fields[i].1.value);
      var segs := [Hole(key)];
      assert WellFormed(segs);
      assert fields == fields[..i] + [(key, Some(v))] + fields[i + 1..];
      SingleHoleGetsExpansion(fields[..i], key, v, fields[i + 1..]);
      RenderHole(key);
      ValueOfField(fields, i);
      assert segs[1..] == [];
      assert Fill(segs, Values(fields)) == v;
      ExpandChanges(v, key);
    }
  }

  lemma {:induction false} ValueOfField(fields: Fields, i: nat)
    requires FieldsOk(fields) && i < |fields| && fields[i].1.Some?
    ensures fields[i].0 in Values(fields) && Values(fields)[fields[i].0] == fields[i].1.value
    decreases |fields|
  {
    if i > 0 {
      assert forall j :: 0 <= j < |fields[1..]| ==> fields[1..][j] == fields[j + 1];
      ValueOfField(fields[1..], i - 1);
    }
  }

  /** A value that is itself a tag lies outside: a field that comes later fills it, one that came
      earlier does not, so there the order of the fields decides. */
  lemma TagInValueIsFilledLater(key: string, inner: string, x: string)
    requires BraceFree(key) && BraceFree(inner) && key != inner && OpensNothing(x) && Plain(x) && Plain(Tag(inner))
    ensures Merged(Tag(key), [(key, Some(Tag(inner))), (inner, Some(x))]) == x
    ensures Merged(Tag(key), [(inner, Some(x)), (key, Some(Tag(inner)))]) == Tag(inner) != x
  {
    hide ReplaceAll, Render, Plain, Tag;
    RenderHole(key);
    OneTagReplaced(key, Tag(inner));
    OneTagReplaced(inner, x);
    ReplaceAllIsSubst([Hole(key)], inner, x);
    SubstAbsent([Hole(key)], inner, x);
    TwoFields(Tag(key), key, Tag(inner), inner, x);
    TwoFields(Tag(key), inner, x, key, Tag(inner));
    NoTag(x, inner);
  }

  lemma NoTag(x: string, key: string)
    requires OpensNothing(x)
    ensures x != Tag(key)
  {
    assert |Tag(key)| > 0 && Tag(key)[0] == '{';
    assert |x| > 0 ==> x[0] != '{';
  }

  lemma TwoFields(template: string, a: string, v: string, b: string, w: string)
    ensures Merged(template, [(a, Some(v)), (b, Some(w))]) == ReplaceAll(ReplaceAll(template, Tag(a), v), Tag(b), w)
  {
    var once := ReplaceAll(template, Tag(a), v);
    assert [(a, Some(v)), (b, Some(w))] == [(a, Some(v))] + [(b, Some(w))] && [(b, Some(w))] == [(b, Some(w))] + [];
    hide ReplaceAll;
    MergedOne(template, a, v, [(b, Some(w))]);
    MergedOne(once, b, w, []);
  }

  lemma OneTagReplaced(key: string, v: string)
    requires Plain(v)
    ensures ReplaceAll(Tag(key), Tag(key), v) == v
  {
    assert Tag(key) + "" == Tag(key);
    ScanOwnHole("", "", key, v);
    assert v + "" == v;
  }

  /** The order of the fields does not matter to plain values. */
  lemma OrderIrrelevant(segs: seq<Segment>, fields: Fields, reordered: Fields)
    requires WellFormed(segs) && FieldsOk(fields) && AllPlain(fields)
    requires multiset(fields) == multiset(reordered)
    requires FieldsOk(reordered)
    ensures Merged(Render(segs), reordered) == Merged(Render(segs), fields)
  {
    assert AllPlain(reordered) by {
      forall i | 0 <= i < |reordered| && reordered[i].1.Some? ensures Plain(reordered[i].1.value) {
        assert reordered[i] in multiset(reordered);
        assert reordered[i] in fields;
      }
    }
    SequentialIsSimultaneous(segs, fields);
    SequentialIsSimultaneous(segs, reordered);
    SameEntriesSameValues(fields, reordered);
    SameEntriesSameValues(reordered, fields);
    assert Values(fields) == Values(reordered);
  }

  lemma SameEntriesSameValues(a: Fields, b: Fields)
    requires FieldsOk(a) && FieldsOk(b) && multiset(a) == multiset(b)
    ensures forall k :: k in Values(a) ==> k in Values(b) && Values(b)[k] == Values(a)[k]
  {
    forall k | k in Values(a) ensures k in Values(b) && Values(b)[k] == Values(a)[k] {
      ValuesHaveFieldKeys(a, k);
      var i :| 0 <= i < |a| && a[i] == (k, Some(Values(a)[k]));
      assert a[i] in multiset(b);
      var j :| 0 <= j < |b| && b[j] == a[i];
      ValueOfField(b, j);
    }
  }

  // ---------------------------------------------------------------- what a replacement text means

  // A replacement as it is written: text without dollar signs, and the four patterns.
  datatype Piece = Plain(text: string) | Dollar | TheMatch | WhatIsBefore | WhatIsBehind

  predicate ArePieces(pieces: seq<Piece>) {
    forall i :: 0 <= i < |pieces| && pieces[i].Plain? ==> '$' !in pieces[i].text
  }

  function Spelled(pieces: seq<Piece>): string {
    if |pieces| == 0 then ""
    else
      (match pieces[0]
       case Plain(text) => text
       case Dollar => "$$"
       case TheMatch => "$&"
       case WhatIsBefore => "$`"
       case WhatIsBehind => "$'")
      + Spelled(pieces[1..])
  }

  function Meant(pieces: seq<Piece>, matched: string, before: string, after: string): string {
    if |pieces| == 0 then ""
    else
      (match pieces[0]
       case Plain(text) => text
       case Dollar => "$"
       case TheMatch => matched
       case WhatIsBefore => before
       case WhatIsBehind => after)
      + Meant(pieces[1..], matched, before, after)
  }

  lemma {:induction false} PlainStays(matched: string, before: string, after: string, text: string, rest: string)
    requires '$' !in text
    ensures GetSubstitution(matched, before, after, text + rest) == text + GetSubstitution(matched, before, after, rest)
  {
    if |text| == 0 {
      assert text + rest == rest;
    } else {
      assert (text + rest)[0] == text[0] && (text + rest)[1..] == text[1..] + rest;
      PlainStays(matched, before, after, text[1..], rest);
    }
  }

  lemma PatternMeans(matched: string, before: string, after: string, c: char, rest: string)
    requires c in "$&`'"
    ensures GetSubstitution(matched, before, after, ['$', c] + rest) ==
            (if c == '$' then "$" else if c == '&' then matched else if c == '`' then before else after)
            + GetSubstitution(matched, before, after, rest)
  {
    var s := ['$', c] + rest;
    assert s[0] == '$' && s[1] == c && s[2..] == rest && IsPattern(s, 0);
  }

  /** A replacement of such pieces stands for: the text as it is, a dollar sign, the match, what is before
      it in the letter, and what is behind it. */
  lemma {:induction false} ReplacementMeans(pieces: seq<Piece>, matched: string, before: string, after: string)
    requires ArePieces(pieces)
    ensures GetSubstitution(matched, before, after, Spelled(pieces)) == Meant(pieces, matched, before, after)
  {
    hide GetSubstitution;
    if |pieces| == 0 {
      NothingMeans(matched, before, after);
    } else {
      var rest := Spelled(pieces[1..]);
      ReplacementMeans(pieces[1..], matched, before, after);
      match pieces[0]
      case Plain(text) => PlainStays(matched, before, after, text, rest);
      case Dollar => PatternMeans(matched, before, after, '$', rest);
      case TheMatch => PatternMeans(matched, before, after, '&', rest);
      case WhatIsBefore => PatternMeans(matched, before, after, '`', rest);
      case WhatIsBehind => PatternMeans(matched, before, after, '\'', rest);
    }
  }

  lemma NothingMeans(matched: string, before: string, after: string)
    ensures GetSubstitution(matched, before, after, "") == ""
  {
  }
}
