/** The notifier: suggestions become a list of chat blocks — a header, a
    divider, then for each suggestion a text section, an approve button that
    carries the suggestion's payload, and a divider — posted to the webhook
    when one is configured. */
module Notify {
  import opened Wrappers
  import opened Payload
  import opened Callback

  /** One resize proposal, as the scan collects it. */
  datatype Suggestion = Suggestion(instanceId: string, nameTag: Option<string>, currentType: string,
                                   averageCpu: real, maxCpu: real, suggestedType: string,
                                   region: string)

  /** An interactive button; `value` is returned verbatim in the callback. */
  datatype Button = Button(text: string, style: string, value: string, actionId: string)

  /** The block kinds the notifier writes. */
  datatype Block =
    | Header(text: string)
    | Divider
    | Section(text: string)
    | Actions(elements: seq<Button>)

  /** One webhook post: the URL and the `blocks` document. */
  datatype Message = Message(url: string, blocks: seq<Block>)

  const HeaderText: string := "\U{1F6A8} EC2 Instance Optimization Suggestions"
  const ApproveText: string := "\U{2705} Approve this change"
  const ActionIdPrefix: string := "approve_ec2_change_"

  /** Whether a webhook URL is configured: Python treats `None` and `""` alike. */
  predicate UrlSet(url: Option<string>)
  {
    url.Some? && url.value != ""
  }

  /** `send_slack_block_message` up to the HTTP call: without a URL nothing is
      posted; otherwise exactly the given blocks go to that URL. Delivery
      errors are only logged, so they do not appear here. */
  function SendBlocks(blocks: seq<Block>, url: Option<string>): (r: Option<Message>)
    ensures r.Some? <==> UrlSet(url)
    ensures r.Some? ==> r.value.url == url.value && r.value.blocks == blocks
  {
    if UrlSet(url) then Some(Message(url.value, blocks)) else None
  }

  /** The four fields the approve button carries. */
  function PayloadOf(s: Suggestion): ActionPayload
  {
    ActionPayload(s.instanceId, s.currentType, s.suggestedType, s.region)
  }

  /** Python's `str()` of an optional name: `None` prints as `None`. */
  function NameText(name: Option<string>): string
  {
    match name
    case None => "None"
    case Some(n) => n
  }

  /** The section text of one suggestion; `showCpu` renders a percentage
      (Python's `str` of the rounded float). */
  function SuggestionText(s: Suggestion, showCpu: real -> string): string
  {
    "*Region:* `" + s.region + "`\n"
    + "*Instance ID:* `" + s.instanceId + "`\n"
    + "*Instance Name:* `" + NameText(s.nameTag) + "`\n"
    + "*Current Instance Type:* `" + s.currentType + "`\n"
    + "*CPU Utilization Average:* `" + showCpu(s.averageCpu) + "%` (Max `" + showCpu(s.maxCpu) + "%`)\n"
    + "\U{1F527} *Recommended Instance Type:* Change to `" + s.suggestedType + "`"
  }

  /** The section opens with the region line and ends with the recommended
      type in backquotes. */
  lemma SuggestionTextShape(s: Suggestion, showCpu: real -> string)
    ensures "*Region:* `" + s.region + "`\n" <= SuggestionText(s, showCpu)
    ensures |s.suggestedType| + 2 <= |SuggestionText(s, showCpu)|
    ensures SuggestionText(s, showCpu)[|SuggestionText(s, showCpu)| - |s.suggestedType| - 2..]
            == "`" + s.suggestedType + "`"
  {
    var head := "*Region:* `" + s.region + "`\n";
    var tail := "`" + s.suggestedType + "`";
    var t := SuggestionText(s, showCpu);
    var middle := t[|head|..|t| - |tail|];
    assert t == head + middle + tail;
  }

  /** The approve button of one suggestion. */
  function ApproveButton(s: Suggestion): (b: Button)
    ensures b.value == Encode(PayloadOf(s))
    ensures b.actionId == ActionIdPrefix + s.instanceId
    ensures b.actionId[|ActionIdPrefix|..] == s.instanceId
  {
    var id := ActionIdPrefix + s.instanceId;
    assert id[|ActionIdPrefix|..] == s.instanceId;
    Button(ApproveText, "primary", Encode(PayloadOf(s)), id)
  }

  /** The three blocks the loop appends for one suggestion: its text, its
      approve button, a divider. */
  function Triple(s: Suggestion, showCpu: real -> string): seq<Block>
  {
    [Section(SuggestionText(s, showCpu)), Actions([ApproveButton(s)]), Divider]
  }

  /** Whether `bs` holds the three blocks of `s` starting at position `at`. */
  predicate TripleAt(bs: seq<Block>, at: int, s: Suggestion, showCpu: real -> string)
  {
    && 0 <= at && at + 3 <= |bs|
    && bs[at] == Section(SuggestionText(s, showCpu))
    && bs[at + 1] == Actions([ApproveButton(s)])
    && bs[at + 2] == Divider
  }

  lemma TripleAtAppend(a: seq<Block>, b: seq<Block>, at: int, s: Suggestion, showCpu: real -> string)
    requires TripleAt(a, at, s, showCpu)
    ensures TripleAt(a + b, at, s, showCpu)
  {
    assert (a + b)[at] == a[at] && (a + b)[at + 1] == a[at + 1] && (a + b)[at + 2] == a[at + 2];
  }

  lemma TripleAtShift(a: seq<Block>, b: seq<Block>, at: int, s: Suggestion, showCpu: real -> string)
    requires TripleAt(b, at, s, showCpu)
    ensures TripleAt(a + b, |a| + at, s, showCpu)
  {
    assert (a + b)[|a| + at] == b[at];
    assert (a + b)[|a| + at + 1] == b[at + 1];
    assert (a + b)[|a| + at + 2] == b[at + 2];
  }

  lemma TripleAtEnd(a: seq<Block>, s: Suggestion, showCpu: real -> string)
    ensures TripleAt(a + Triple(s, showCpu), |a|, s, showCpu)
  {
    TripleAtShift(a, Triple(s, showCpu), 0, s, showCpu);
    assert |a| + 0 == |a|;
  }

  /** The blocks the loop appends, in input order: suggestion i's three
      blocks start at position 3i. */
  function SuggestionBlocks(ss: seq<Suggestion>, showCpu: real -> string): (r: seq<Block>)
    ensures |r| == 3 * |ss|
    ensures forall i :: 0 <= i < |ss| ==> TripleAt(r, 3 * i, ss[i], showCpu)
  {
    if |ss| == 0 then []
    else
      var init := SuggestionBlocks(ss[..|ss| - 1], showCpu);
      var last := ss[|ss| - 1];
      var r := init + Triple(last, showCpu);
      forall i | 0 <= i < |ss|
        ensures TripleAt(r, 3 * i, ss[i], showCpu)
      {
        if i < |ss| - 1 {
          assert ss[..|ss| - 1][i] == ss[i];
          TripleAtAppend(init, Triple(last, showCpu), 3 * i, ss[i], showCpu);
        } else {
          TripleAtEnd(init, last, showCpu);
        }
      }
      r
  }

  /** The whole block list: header and divider, then suggestion i's three
      blocks from position 2 + 3i. */
  function Blocks(ss: seq<Suggestion>, showCpu: real -> string): (r: seq<Block>)
    ensures |r| == 2 + 3 * |ss|
    ensures r[0] == Header(HeaderText) && r[1] == Divider
    ensures forall i :: 0 <= i < |ss| ==> TripleAt(r, 2 + 3 * i, ss[i], showCpu)
  {
    var head := [Header(HeaderText), Divider];
    var body := SuggestionBlocks(ss, showCpu);
    forall i | 0 <= i < |ss|
      ensures TripleAt(head + body, 2 + 3 * i, ss[i], showCpu)
    {
      TripleAtShift(head, body, 3 * i, ss[i], showCpu);
    }
    head + body
  }

  /** `notify_ec2_suggestions`: an empty list posts nothing; otherwise the
      block list goes to the webhook, if one is set. */
  function NotifyEc2Suggestions(ss: seq<Suggestion>, url: Option<string>,
                                showCpu: real -> string): (r: Option<Message>)
    ensures |ss| == 0 ==> r.None?
    ensures r.Some? <==> |ss| > 0 && UrlSet(url)
    ensures r.Some? ==> r.value.url == url.value && r.value.blocks == Blocks(ss, showCpu)
  {
    if |ss| == 0 then None else SendBlocks(Blocks(ss, showCpu), url)
  }

  /** Every button of a block list, in order, as the chat client would
      offer them. */
  function ButtonsOf(blocks: seq<Block>): seq<Button>
  {
    if |blocks| == 0 then [] else BlockButtons(blocks[0]) + ButtonsOf(blocks[1..])
  }

  function BlockButtons(b: Block): seq<Button>
  {
    if b.Actions? then b.elements else []
  }

  lemma {:induction false} ButtonsOfAppend(a: seq<Block>, b: seq<Block>)
    ensures ButtonsOf(a + b) == ButtonsOf(a) + ButtonsOf(b)
    decreases |a|
  {
    if |a| == 0 {
      assert a + b == b;
    } else {
      assert (a + b)[1..] == a[1..] + b;
      assert (a + b)[0] == a[0];
      ButtonsOfAppend(a[1..], b);
    }
  }

  /** The blocks of one suggestion hold just its approve button. */
  lemma TripleButtons(s: Suggestion, showCpu: real -> string)
    ensures ButtonsOf(Triple(s, showCpu)) == [ApproveButton(s)]
  {
    var t := Triple(s, showCpu);
    assert t[1..][1..][1..] == [];
    assert ButtonsOf(t[1..][1..]) == [];
    assert ButtonsOf(t[1..]) == [ApproveButton(s)];
  }

  /** The approve buttons of the suggestions, in input order. */
  function ApproveButtons(ss: seq<Suggestion>): (r: seq<Button>)
    ensures |r| == |ss|
    ensures forall i :: 0 <= i < |ss| ==> r[i] == ApproveButton(ss[i])
  {
    if |ss| == 0 then []
    else
      var front := ApproveButtons(ss[..|ss| - 1]);
      var r := front + [ApproveButton(ss[|ss| - 1])];
      forall i | 0 <= i < |ss| - 1
        ensures r[i] == ApproveButton(ss[i])
      {
        assert ss[..|ss| - 1][i] == ss[i];
      }
      r
  }

  /** The suggestion blocks offer exactly the approve buttons, in input order. */
  lemma {:induction false} ButtonsOfSuggestionBlocks(ss: seq<Suggestion>, showCpu: real -> string)
    ensures ButtonsOf(SuggestionBlocks(ss, showCpu)) == ApproveButtons(ss)
    decreases |ss|
  {
    if |ss| > 0 {
      var init := ss[..|ss| - 1];
      var last := ss[|ss| - 1];
      var front := SuggestionBlocks(init, showCpu);
      ButtonsOfSuggestionBlocks(init, showCpu);
      assert SuggestionBlocks(ss, showCpu) == front + Triple(last, showCpu);
      ButtonsOfAppend(front, Triple(last, showCpu));
      TripleButtons(last, showCpu);
    }
  }

  /** The whole block list offers one button per suggestion, the i-th being
      suggestion i's. */
  lemma ButtonsOfBlocks(ss: seq<Suggestion>, showCpu: real -> string)
    ensures ButtonsOf(Blocks(ss, showCpu)) == ApproveButtons(ss)
  {
    var head := [Header(HeaderText), Divider];
    ButtonsOfAppend(head, SuggestionBlocks(ss, showCpu));
    assert head[1..][1..] == [];
    assert ButtonsOf(head[1..]) == [];
    assert ButtonsOf(head) == [];
    assert Blocks(ss, showCpu) == head + SuggestionBlocks(ss, showCpu);
    ButtonsOfSuggestionBlocks(ss, showCpu);
  }

  /** Reading back the i-th button through the callback gives the i-th
      suggestion's payload with the `+` of its fields deleted, and exactly
      that payload when its fields contain no `+`. */
  lemma ApprovalRoundTrip(ss: seq<Suggestion>, showCpu: real -> string, i: nat)
    requires i < |ss|
    ensures i < |ButtonsOf(Blocks(ss, showCpu))|
    ensures DecodeActionValue(ButtonsOf(Blocks(ss, showCpu))[i].value) == Some(StripFields(PayloadOf(ss[i])))
    ensures DecodeActionValue(ButtonsOf(Blocks(ss, showCpu))[i].value) == Some(PayloadOf(ss[i]))
        <==> '+' !in ss[i].instanceId && '+' !in ss[i].currentType
             && '+' !in ss[i].suggestedType && '+' !in ss[i].region
  {
    ButtonsOfBlocks(ss, showCpu);
    ButtonValueDecodes(PayloadOf(ss[i]));
    ButtonValueRoundTrip(PayloadOf(ss[i]));
  }

  /** The same round trip for the value as it comes back form-encoded, its
      spaces turned into `+`: suggestion `i` is recovered exactly when none
      of its four fields contains a space or a `+`. */
  lemma FormApprovalRoundTrip(ss: seq<Suggestion>, showCpu: real -> string, i: nat)
    requires i < |ss|
    ensures i < |ButtonsOf(Blocks(ss, showCpu))|
    ensures DecodeActionValue(FormSpaces(ButtonsOf(Blocks(ss, showCpu))[i].value))
            == Some(StripFields(FormFields(PayloadOf(ss[i]))))
    ensures DecodeActionValue(FormSpaces(ButtonsOf(Blocks(ss, showCpu))[i].value)) == Some(PayloadOf(ss[i]))
        <==> && ' ' !in ss[i].instanceId && ' ' !in ss[i].currentType
             && ' ' !in ss[i].suggestedType && ' ' !in ss[i].region
             && '+' !in ss[i].instanceId && '+' !in ss[i].currentType
             && '+' !in ss[i].suggestedType && '+' !in ss[i].region
  {
    ButtonsOfBlocks(ss, showCpu);
    FormValueDecodes(PayloadOf(ss[i]));
    FormValueRoundTrip(PayloadOf(ss[i]));
  }
}
