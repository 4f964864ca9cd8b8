/** The string surgery of the interactive-callback path: the form body loses
    its `payload=` prefix by position, and the button value loses every `+`
    before it is parsed as JSON. The callback arrives form-encoded, so every
    space of the button value, those `json.dumps` writes after `:` and `,`
    included, arrives as `+`; `unquote` leaves `+` alone. */
module Callback {
  import opened Wrappers
  import opened Payload

  /** `len('payload=')`. */
  const PrefixLength: nat := |"payload="|

  /** `body[len('payload='):]`: drops the first eight characters, whatever
      they are; a shorter body slices to the empty string. */
  function StripPrefix(body: string): (r: string)
    ensures |body| >= PrefixLength ==> body == body[..PrefixLength] + r
    ensures |body| < PrefixLength ==> r == []
    ensures |r| == if |body| >= PrefixLength then |body| - PrefixLength else 0
  {
    if |body| >= PrefixLength then body[PrefixLength..] else []
  }

  /** Whatever eight characters precede it, the rest survives intact; in
      particular `payload=` followed by the JSON document gives the document. */
  lemma StripPrefixOf(head: string, doc: string)
    requires |head| == PrefixLength
    ensures StripPrefix(head + doc) == doc
    ensures StripPrefix("payload=" + doc) == doc
  {
    assert (head + doc)[PrefixLength..] == doc;
    assert ("payload=" + doc)[PrefixLength..] == doc;
  }

  /** Whether `a` can be obtained from `b` by deleting characters. */
  predicate IsSubsequence(a: string, b: string)
    decreases |b|
  {
    |a| == 0 || (|b| > 0 && if a[0] == b[0] then IsSubsequence(a[1..], b[1..]) else IsSubsequence(a, b[1..]))
  }

  /** `re.sub(r'\+', '', value)`. */
  function StripPlus(s: string): string
  {
    if |s| == 0 then []
    else if s[0] == '+' then StripPlus(s[1..])
    else [s[0]] + StripPlus(s[1..])
  }

  /** Stripping leaves no `+`, keeps every other character as often as it
      occurred, and keeps them in their original order. */
  lemma {:induction false} StripPlusSpec(s: string)
    ensures '+' !in StripPlus(s)
    ensures IsSubsequence(StripPlus(s), s)
    ensures forall c :: c != '+' ==> multiset(StripPlus(s))[c] == multiset(s)[c]
    ensures |StripPlus(s)| == |s| - multiset(s)['+']
    decreases |s|
  {
    if |s| > 0 {
      var rest := StripPlus(s[1..]);
      StripPlusSpec(s[1..]);
      assert s == [s[0]] + s[1..];
      assert multiset(s) == multiset{s[0]} + multiset(s[1..]);
      if s[0] == '+' {
        SubsequenceOfTail(rest, s);
      } else {
        assert ([s[0]] + rest)[1..] == rest;
      }
    }
  }

  /** A subsequence of the tail is a subsequence of the whole. */
  lemma {:induction false} SubsequenceOfTail(a: string, b: string)
    requires |b| > 0 && IsSubsequence(a, b[1..])
    ensures IsSubsequence(a, b)
    decreases |b|, |a|
  {
    if |a| > 0 && a[0] == b[0] {
      assert IsSubsequence(a[1..], b[1..]) by {
        if |b| > 1 {
          SubsequenceDropHead(a, b[1..]);
        }
      }
    }
  }

  lemma {:induction false} SubsequenceDropHead(a: string, b: string)
    requires |a| > 0 && IsSubsequence(a, b)
    ensures IsSubsequence(a[1..], b)
    decreases |b|, |a|
  {
    if a[0] == b[0] {
      if |a| > 1 {
        SubsequenceOfTail(a[1..], b);
      }
    } else {
      SubsequenceDropHead(a, b[1..]);
      SubsequenceOfTail(a[1..], b);
    }
  }

  /** A value without `+` passes unchanged; in particular stripping twice is
      the same as stripping once. */
  lemma {:induction false} StripPlusFixes(s: string)
    requires '+' !in s
    ensures StripPlus(s) == s
    decreases |s|
  {
    if |s| > 0 {
      assert s == [s[0]] + s[1..];
      StripPlusFixes(s[1..]);
    }
  }

  lemma StripPlusIdempotent(s: string)
    ensures StripPlus(StripPlus(s)) == StripPlus(s)
  {
    StripPlusSpec(s);
    StripPlusFixes(StripPlus(s));
  }

  lemma {:induction false} StripPlusAppend(a: string, b: string)
    ensures StripPlus(a + b) == StripPlus(a) + StripPlus(b)
    decreases |a|
  {
    if |a| == 0 {
      assert a + b == b;
    } else {
      assert (a + b)[1..] == a[1..] + b;
      assert (a + b)[0] == a[0];
      StripPlusAppend(a[1..], b);
    }
  }

  /** Escaping never writes a `+` of its own, so deleting `+` before or
      after escaping gives the same text. */
  lemma {:induction false} StripPlusEscape(s: string)
    ensures StripPlus(Escape(s)) == Escape(StripPlus(s))
    decreases |s|
  {
    if |s| > 0 {
      var c, tail := s[0], s[1..];
      assert Escape(s) == EscapeChar(c) + Escape(tail);
      StripPlusAppend(EscapeChar(c), Escape(tail));
      StripPlusEscape(tail);
      if c == '+' {
        assert StripPlus(s) == StripPlus(tail);
        assert EscapeChar(c) == "+";
        assert StripPlus(EscapeChar(c)) == [];
      } else {
        assert StripPlus(s) == [c] + StripPlus(tail);
        EscapeCons(c, StripPlus(tail));
        EscapeWritesNoPlus(c);
        StripPlusFixes(EscapeChar(c));
      }
    }
  }

  /** The escape of any character but `+` writes no `+`. */
  lemma EscapeWritesNoPlus(c: char)
    requires c != '+'
    ensures '+' !in EscapeChar(c)
  {
  }

  lemma EscapeCons(c: char, s: string)
    ensures Escape([c] + s) == EscapeChar(c) + Escape(s)
  {
    assert ([c] + s)[1..] == s;
  }

  /** The payload as the callback sees it: each field with its `+` deleted. */
  function StripFields(p: ActionPayload): ActionPayload
  {
    ActionPayload(StripPlus(p.instanceId), StripPlus(p.currentType),
                  StripPlus(p.suggestedType), StripPlus(p.region))
  }

  lemma StripPlusQuote(s: string)
    ensures StripPlus(Quote(s)) == Quote(StripPlus(s))
  {
    StripPlusAppend("\"" + Escape(s), "\"");
    StripPlusAppend("\"", Escape(s));
    StripPlusEscape(s);
    StripPlusFixes("\"");
  }

  lemma StripPlusMember(key: string, v: string, gap: string)
    requires '+' !in key
    ensures StripPlus(Member(key, v, gap)) == Member(key, StripPlus(v), StripPlus(gap))
  {
    var head := "\"" + key + "\"" + ":";
    assert '+' !in head;
    assert Member(key, v, gap) == head + gap + Quote(v);
    assert Member(key, StripPlus(v), StripPlus(gap)) == head + StripPlus(gap) + Quote(StripPlus(v));
    StripPlusAppend(head + gap, Quote(v));
    StripPlusAppend(head, gap);
    StripPlusFixes(head);
    StripPlusQuote(v);
  }

  /** A member followed by a separator, gap and more text. */
  lemma StripPlusMemberThen(key: string, v: string, gap: string, sep: string, next: string)
    requires '+' !in key && '+' !in sep
    ensures StripPlus(Member(key, v, gap) + (sep + gap + next))
            == Member(key, StripPlus(v), StripPlus(gap)) + (sep + StripPlus(gap) + StripPlus(next))
  {
    StripPlusAppend(Member(key, v, gap), sep + gap + next);
    StripPlusMember(key, v, gap);
    StripPlusAppend(sep + gap, next);
    StripPlusAppend(sep, gap);
    StripPlusFixes(sep);
  }

  /** The four keys contain no `+`. */
  lemma KeysHaveNoPlus()
    ensures '+' !in "instance_id" && '+' !in "current_type"
    ensures '+' !in "suggested_type" && '+' !in "region"
  {
    KeysArePlain();
    NoPlusInPlain("instance_id");
    NoPlusInPlain("current_type");
    NoPlusInPlain("suggested_type");
    NoPlusInPlain("region");
  }

  lemma NoPlusInPlain(key: string)
    requires PlainKey(key)
    ensures '+' !in key
  {
  }

  /** Deleting `+` from the written object is the same as writing the object
      of the fields with their `+` deleted, with the gap's `+` deleted too. */
  lemma StripPlusLayout(p: ActionPayload, gap: string)
    ensures StripPlus(Layout(p, gap)) == Layout(StripFields(p), StripPlus(gap))
  {
    KeysHaveNoPlus();
    var q, g := StripFields(p), StripPlus(gap);
    var t4 := Member("region", p.region, gap) + "}";
    var t3 := Member("suggested_type", p.suggestedType, gap) + ("," + gap + t4);
    var t2 := Member("current_type", p.currentType, gap) + ("," + gap + t3);
    var t1 := Member("instance_id", p.instanceId, gap) + ("," + gap + t2);
    var u4 := Member("region", q.region, g) + "}";
    var u3 := Member("suggested_type", q.suggestedType, g) + ("," + g + u4);
    var u2 := Member("current_type", q.currentType, g) + ("," + g + u3);
    var u1 := Member("instance_id", q.instanceId, g) + ("," + g + u2);
    StripPlusLast(p.region, gap);
    StripPlusMemberThen("suggested_type", p.suggestedType, gap, ",", t4);
    StripPlusMemberThen("current_type", p.currentType, gap, ",", t3);
    StripPlusMemberThen("instance_id", p.instanceId, gap, ",", t2);
    StripPlusOpen(t1);
    assert Layout(p, gap) == "{" + t1;
    assert Layout(q, g) == "{" + u1;
  }

  lemma StripPlusLast(v: string, gap: string)
    ensures StripPlus(Member("region", v, gap) + "}") == Member("region", StripPlus(v), StripPlus(gap)) + "}"
  {
    KeysHaveNoPlus();
    StripPlusMember("region", v, gap);
    StripPlusAppend(Member("region", v, gap), "}");
    StripPlusFixes("}");
  }

  lemma StripPlusOpen(t: string)
    ensures StripPlus("{" + t) == "{" + StripPlus(t)
  {
    StripPlusAppend("{", t);
    StripPlusFixes("{");
  }

  /** What the form encoding does to a value, as seen after `unquote`: each
      space becomes `+`, every other character stays. */
  function FormSpaces(s: string): (r: string)
    ensures |r| == |s| && ' ' !in r
    ensures forall i :: 0 <= i < |s| ==> r[i] == if s[i] == ' ' then '+' else s[i]
  {
    if |s| == 0 then []
    else
      var r := [if s[0] == ' ' then '+' else s[0]] + FormSpaces(s[1..]);
      assert forall i :: 1 <= i < |s| ==> r[i] == FormSpaces(s[1..])[i - 1] && s[i] == s[1..][i - 1];
      r
  }

  lemma FormSpacesAppend(a: string, b: string)
    ensures FormSpaces(a + b) == FormSpaces(a) + FormSpaces(b)
  {
    assert forall i :: 0 <= i < |a| ==> (a + b)[i] == a[i];
    assert forall i :: |a| <= i < |a + b| ==> (a + b)[i] == b[i - |a|];
  }

  lemma FormSpacesFixes(s: string)
    requires ' ' !in s
    ensures FormSpaces(s) == s
  {
  }

  /** The escape of any character but a space writes no space. */
  lemma EscapeWritesNoSpace(c: char)
    requires c != ' '
    ensures ' ' !in EscapeChar(c)
  {
  }

  /** Escaping writes a space only for a space, and `+` for `+`, so the form
      encoding commutes with escaping. */
  lemma {:induction false} FormSpacesEscape(s: string)
    ensures FormSpaces(Escape(s)) == Escape(FormSpaces(s))
    decreases |s|
  {
    if |s| > 0 {
      var c, tail := s[0], s[1..];
      var c' := if c == ' ' then '+' else c;
      assert Escape(s) == EscapeChar(c) + Escape(tail);
      FormSpacesAppend(EscapeChar(c), Escape(tail));
      FormSpacesEscape(tail);
      assert FormSpaces(s) == [c'] + FormSpaces(tail);
      EscapeCons(c', FormSpaces(tail));
      if c == ' ' {
        assert EscapeChar(c) == " " && EscapeChar(c') == "+";
      } else {
        EscapeWritesNoSpace(c);
        FormSpacesFixes(EscapeChar(c));
      }
    }
  }

  /** The payload with the form encoding applied to each field. */
  function FormFields(p: ActionPayload): ActionPayload
  {
    ActionPayload(FormSpaces(p.instanceId), FormSpaces(p.currentType),
                  FormSpaces(p.suggestedType), FormSpaces(p.region))
  }

  lemma FormSpacesQuote(s: string)
    ensures FormSpaces(Quote(s)) == Quote(FormSpaces(s))
  {
    FormSpacesAppend("\"" + Escape(s), "\"");
    FormSpacesAppend("\"", Escape(s));
    FormSpacesEscape(s);
    FormSpacesFixes("\"");
  }

  lemma FormSpacesMember(key: string, v: string, gap: string)
    requires PlainKey(key)
    ensures FormSpaces(Member(key, v, gap)) == Member(key, FormSpaces(v), FormSpaces(gap))
  {
    var head := "\"" + key + "\"" + ":";
    assert ' ' !in head;
    assert Member(key, v, gap) == head + gap + Quote(v);
    assert Member(key, FormSpaces(v), FormSpaces(gap)) == head + FormSpaces(gap) + Quote(FormSpaces(v));
    FormSpacesAppend(head + gap, Quote(v));
    FormSpacesAppend(head, gap);
    FormSpacesFixes(head);
    FormSpacesQuote(v);
  }

  lemma FormSpacesMemberThen(key: string, v: string, gap: string, next: string)
    requires PlainKey(key)
    ensures FormSpaces(Member(key, v, gap) + ("," + gap + next))
            == Member(key, FormSpaces(v), FormSpaces(gap)) + ("," + FormSpaces(gap) + FormSpaces(next))
  {
    FormSpacesAppend(Member(key, v, gap), "," + gap + next);
    FormSpacesMember(key, v, gap);
    FormSpacesAppend("," + gap, next);
    FormSpacesAppend(",", gap);
    FormSpacesFixes(",");
  }

  /** The form encoding of the written object is the object of the encoded
      fields, written with the encoded gap. */
  lemma FormSpacesLayout(p: ActionPayload, gap: string)
    ensures FormSpaces(Layout(p, gap)) == Layout(FormFields(p), FormSpaces(gap))
  {
    KeysArePlain();
    var q, g := FormFields(p), FormSpaces(gap);
    var t4 := Member("region", p.region, gap) + "}";
    var t3 := Member("suggested_type", p.suggestedType, gap) + ("," + gap + t4);
    var t2 := Member("current_type", p.currentType, gap) + ("," + gap + t3);
    var t1 := Member("instance_id", p.instanceId, gap) + ("," + gap + t2);
    var u4 := Member("region", q.region, g) + "}";
    var u3 := Member("suggested_type", q.suggestedType, g) + ("," + g + u4);
    var u2 := Member("current_type", q.currentType, g) + ("," + g + u3);
    var u1 := Member("instance_id", q.instanceId, g) + ("," + g + u2);
    FormSpacesMember("region", p.region, gap);
    FormSpacesAppend(Member("region", p.region, gap), "}");
    FormSpacesFixes("}");
    FormSpacesMemberThen("suggested_type", p.suggestedType, gap, t4);
    FormSpacesMemberThen("current_type", p.currentType, gap, t3);
    FormSpacesMemberThen("instance_id", p.instanceId, gap, t2);
    FormSpacesAppend("{", t1);
    FormSpacesFixes("{");
    assert Layout(p, gap) == "{" + t1;
    assert Layout(q, g) == "{" + u1;
  }

  /** The callback's reading of a button value: delete `+`, then parse. */
  function DecodeActionValue(value: string): Option<ActionPayload>
  {
    Decode(StripPlus(value))
  }

  /** A button value read back through the callback gives the payload with
      the `+` of its fields deleted. */
  lemma ButtonValueDecodes(p: ActionPayload)
    ensures DecodeActionValue(Encode(p)) == Some(StripFields(p))
  {
    StripPlusLayout(p, " ");
    StripPlusFixes(" ");
    DecodeEncode(StripFields(p));
  }

  /** The round trip through the callback recovers the payload exactly when
      none of its four fields contains a `+`. */
  lemma ButtonValueRoundTrip(p: ActionPayload)
    ensures DecodeActionValue(Encode(p)) == Some(p)
        <==> '+' !in p.instanceId && '+' !in p.currentType
             && '+' !in p.suggestedType && '+' !in p.region
  {
    ButtonValueDecodes(p);
    if '+' !in p.instanceId && '+' !in p.currentType && '+' !in p.suggestedType && '+' !in p.region {
      StripPlusFixes(p.instanceId);
      StripPlusFixes(p.currentType);
      StripPlusFixes(p.suggestedType);
      StripPlusFixes(p.region);
    } else {
      StripPlusSpec(p.instanceId);
      StripPlusSpec(p.currentType);
      StripPlusSpec(p.suggestedType);
      StripPlusSpec(p.region);
    }
  }

  /** A field as the callback sees it when the value arrives form-encoded:
      its spaces and its `+` are both gone. */
  lemma ArrivedField(f: string)
    ensures StripPlus(FormSpaces(f)) == f <==> ' ' !in f && '+' !in f
  {
    if ' ' !in f && '+' !in f {
      FormSpacesFixes(f);
      StripPlusFixes(f);
    } else {
      var i :| 0 <= i < |f| && (f[i] == ' ' || f[i] == '+');
      assert FormSpaces(f)[i] == '+';
      StripPlusSpec(FormSpaces(f));
      assert multiset(FormSpaces(f))['+'] > 0;
    }
  }

  /** The button value as the callback actually reads it: `json.dumps`'s
      separator spaces arrive as `+` and are deleted, and so are the spaces
      and `+` inside the fields; the object still parses. */
  lemma FormValueDecodes(p: ActionPayload)
    ensures DecodeActionValue(FormSpaces(Encode(p))) == Some(StripFields(FormFields(p)))
  {
    FormSpacesLayout(p, " ");
    assert FormSpaces(" ") == "+";
    StripPlusLayout(FormFields(p), "+");
    assert StripPlus("+") == "";
    DecodeLayout(StripFields(FormFields(p)), "");
  }

  /** The form-encoded value recovers the payload exactly when no field
      contains a space or a `+`. */
  lemma FormValueRoundTrip(p: ActionPayload)
    ensures DecodeActionValue(FormSpaces(Encode(p))) == Some(p)
        <==> && ' ' !in p.instanceId && ' ' !in p.currentType && ' ' !in p.suggestedType && ' ' !in p.region
             && '+' !in p.instanceId && '+' !in p.currentType && '+' !in p.suggestedType && '+' !in p.region
  {
    FormValueDecodes(p);
    ArrivedField(p.instanceId);
    ArrivedField(p.currentType);
    ArrivedField(p.suggestedType);
    ArrivedField(p.region);
  }
}
