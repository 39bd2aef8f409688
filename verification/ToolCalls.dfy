/** Normalising sampled tool calls, and choosing the plurality output without any labels. */
module ToolCalls {
  import opened Prelude
  import opened Sorting

  /** Names and canonical argument texts are numbered in their text order; equal numbers are equal texts. */
  datatype WireCall = WireCall(wireName: int, argumentsJson: int)

  datatype Binding = Binding(wireName: int, officialName: int)

  datatype NormalCall = NormalCall(name: int, arguments: int)

  datatype NormalError = NoBindings | DuplicateWireNames | UnknownWireName | InvalidArguments

  /** The canonical text of a JSON object, if the raw text holds one. */
  type Parser = int -> Option<int>

  // ---------------------------------------------------------------- normalising

  function Lookup(bindings: seq<Binding>, wire: int): Option<int> {
    if bindings == [] then None
    else
      var last := bindings[|bindings| - 1];
      if last.wireName == wire then Some(last.officialName) else Lookup(bindings[..|bindings| - 1], wire)
  }

  function Normal(bindings: seq<Binding>, parse: Parser, call: WireCall): Result<NormalCall, NormalError> {
    var official := Lookup(bindings, call.wireName);
    if official.None? then Err(UnknownWireName)
    else
      var arguments := parse(call.argumentsJson);
      if arguments.None? then Err(InvalidArguments) else Ok(NormalCall(official.value, arguments.value))
  }

  function Normals(bindings: seq<Binding>, parse: Parser, calls: seq<WireCall>)
    : (r: Result<seq<NormalCall>, NormalError>)
  {
    if calls == [] then Ok([])
    else
      var before := Normals(bindings, parse, calls[..|calls| - 1]);
      if before.Err? then before
      else
        var last := Normal(bindings, parse, calls[|calls| - 1]);
        if last.Err? then Err(last.error) else Ok(before.value + [last.value])
  }

  function CallKey(c: NormalCall): Key {
    Key(c.name, c.arguments)
  }

  ghost predicate WireNamesUnique(bindings: seq<Binding>) {
    forall i, j :: 0 <= i < j < |bindings| ==> bindings[i].wireName != bindings[j].wireName
  }

  function WireNames(bindings: seq<Binding>): (names: seq<int>)
    ensures |names| == |bindings| && forall i :: 0 <= i < |names| ==> names[i] == bindings[i].wireName
  {
    seq(|bindings|, i requires 0 <= i < |bindings| => bindings[i].wireName)
  }

  function Domain(bindings: seq<Binding>): set<int> {
    Values(WireNames(bindings))
  }

  function Values(xs: seq<int>): set<int> {
    set x | x in xs
  }

  lemma ValuesGrow(xs: seq<int>, x: int)
    ensures Values(xs + [x]) == Values(xs) + {x}
  {
  }

  /** A list has as many values as entries exactly when no entry repeats. */
  lemma {:induction false} DistinctSize(xs: seq<int>)
    ensures |Values(xs)| <= |xs|
    ensures |Values(xs)| == |xs| <==> NoDuplicates(xs)
    decreases |xs|
  {
    if xs != [] {
      var shorter, last := xs[..|xs| - 1], xs[|xs| - 1];
      DistinctSize(shorter);
      assert xs == shorter + [last];
      ValuesGrow(shorter, last);
      LastRepeats(shorter, last);
    }
  }

  lemma LastRepeats(xs: seq<int>, x: int)
    ensures NoDuplicates(xs + [x]) <==> NoDuplicates(xs) && x !in Values(xs)
    ensures x in Values(xs) <==> x in xs
  {
    var all := xs + [x];
    if NoDuplicates(all) {
      forall i | 0 <= i < |xs|
        ensures xs[i] != x
      {
        assert all[i] != all[|xs|];
      }
      forall i, j | 0 <= i < j < |xs|
        ensures xs[i] != xs[j]
      {
        assert all[i] != all[j];
      }
    }
  }

  function Normalize(calls: seq<WireCall>, bindings: seq<Binding>, parse: Parser)
    : Result<seq<NormalCall>, NormalError>
  {
    if bindings == [] then Err(NoBindings)
    else if |Domain(bindings)| != |bindings| then Err(DuplicateWireNames)
    else
      var normals := Normals(bindings, parse, calls);
      if normals.Err? then normals else Ok(SortBy(normals.value, CallKey))
  }

  lemma DomainSize(bindings: seq<Binding>)
    ensures |Domain(bindings)| == |bindings| <==> WireNamesUnique(bindings)
  {
    DistinctSize(WireNames(bindings));
    var names := WireNames(bindings);
    assert WireNamesUnique(bindings) ==> NoDuplicates(names);
    if NoDuplicates(names) {
      forall i, j | 0 <= i < j < |bindings|
        ensures bindings[i].wireName != bindings[j].wireName
      {
        assert names[i] != names[j];
      }
    }
  }

  /** A call means tool `n` with arguments `g`: some binding of its wire name is officially `n`, and its text parses to `g`. */
  predicate Means(call: WireCall, bindings: seq<Binding>, parse: Parser, n: int, g: int) {
    && parse(call.argumentsJson) == Some(g)
    && exists b :: b in bindings && b.wireName == call.wireName && b.officialName == n
  }

  /** The positions of a sample that call tool `n` with arguments `g`. */
  function Positions(calls: seq<WireCall>, bindings: seq<Binding>, parse: Parser, n: int, g: int): set<nat> {
    set i: nat | i < |calls| && Means(calls[i], bindings, parse, n, g)
  }

  lemma {:induction false} LookupIsBinding(bindings: seq<Binding>, wire: int, n: int)
    requires WireNamesUnique(bindings)
    ensures Lookup(bindings, wire) == Some(n) <==> exists b :: b in bindings && b.wireName == wire && b.officialName == n
    decreases |bindings|
  {
    if bindings != [] {
      var shorter, last := bindings[..|bindings| - 1], bindings[|bindings| - 1];
      LookupIsBinding(shorter, wire, n);
      assert last in bindings && forall b :: b in bindings <==> b in shorter || b == last;
      if last.wireName == wire {
        forall b | b in shorter ensures b.wireName != wire {
          var i :| 0 <= i < |shorter| && shorter[i] == b;
          assert bindings[i].wireName != bindings[|shorter|].wireName;
        }
      }
    }
  }

  lemma NormalMeans(bindings: seq<Binding>, parse: Parser, call: WireCall, n: int, g: int)
    requires WireNamesUnique(bindings)
    ensures Normal(bindings, parse, call) == Ok(NormalCall(n, g)) <==> Means(call, bindings, parse, n, g)
  {
    hide Lookup, WireNamesUnique;
    LookupIsBinding(bindings, call.wireName, n);
  }

  lemma PositionsGrow(calls: seq<WireCall>, last: WireCall, bindings: seq<Binding>, parse: Parser, n: int, g: int)
    ensures |Positions(calls + [last], bindings, parse, n, g)|
         == |Positions(calls, bindings, parse, n, g)| + if Means(last, bindings, parse, n, g) then 1 else 0
  {
    hide Means;
    var before, after := Positions(calls, bindings, parse, n, g), Positions(calls + [last], bindings, parse, n, g);
    assert |calls| !in before;
    assert after == before + if Means(last, bindings, parse, n, g) then {|calls|} else {};
  }

  /** Normalising lists each tool with each argument text as often as the sample calls it so. */
  lemma {:induction false} NormalsCount(
    calls: seq<WireCall>, bindings: seq<Binding>, parse: Parser, n: int, g: int)
    requires WireNamesUnique(bindings) && Normals(bindings, parse, calls).Ok?
    ensures multiset(Normals(bindings, parse, calls).value)[NormalCall(n, g)]
         == |Positions(calls, bindings, parse, n, g)|
    decreases |calls|
  {
    hide Normal, Means, WireNamesUnique;
    if calls == [] {
      assert Positions([], bindings, parse, n, g) == {};
    } else {
      var shorter, last := calls[..|calls| - 1], calls[|calls| - 1];
      NormalsCount(shorter, bindings, parse, n, g);
      NormalMeans(bindings, parse, last, n, g);
      assert calls == shorter + [last];
      PositionsGrow(shorter, last, bindings, parse, n, g);
    }
  }

  /** What a normalised output says: its calls in order of name, then arguments, each as often as the sample makes it. */
  lemma NormalizedSays(calls: seq<WireCall>, bindings: seq<Binding>, parse: Parser)
    requires Normalize(calls, bindings, parse).Ok?
    ensures var out := Normalize(calls, bindings, parse).value;
            && |out| == |calls|
            && (forall i, j :: 0 <= i < j < |out| ==>
                  out[i].name < out[j].name || (out[i].name == out[j].name && out[i].arguments <= out[j].arguments))
            && (forall n, g :: multiset(out)[NormalCall(n, g)] == |Positions(calls, bindings, parse, n, g)|)
  {
    hide Normal, Means, WireNamesUnique, Positions, Normals;
    DomainSize(bindings);
    var normals, out := Normals(bindings, parse, calls).value, Normalize(calls, bindings, parse).value;
    SortByCorrect(normals, CallKey);
    NormalsSize(calls, bindings, parse);
    forall i, j | 0 <= i < j < |out|
      ensures out[i].name < out[j].name || (out[i].name == out[j].name && out[i].arguments <= out[j].arguments)
    {
      assert Leq(CallKey(out[i]), CallKey(out[j]));
    }
    forall n, g
      ensures multiset(out)[NormalCall(n, g)] == |Positions(calls, bindings, parse, n, g)|
    {
      NormalsCount(calls, bindings, parse, n, g);
    }
  }

  lemma {:induction false} NormalsSize(calls: seq<WireCall>, bindings: seq<Binding>, parse: Parser)
    requires Normals(bindings, parse, calls).Ok?
    ensures |Normals(bindings, parse, calls).value| == |calls|
    decreases |calls|
  {
    hide Normal;
    if calls != [] {
      NormalsSize(calls[..|calls| - 1], bindings, parse);
    }
  }

  /** Two samples have the same normalised output exactly when they call each tool with each argument text equally often. */
  lemma EqualExactly(a: seq<WireCall>, b: seq<WireCall>, bindings: seq<Binding>, parse: Parser)
    requires Normalize(a, bindings, parse).Ok? && Normalize(b, bindings, parse).Ok?
    ensures Normalize(a, bindings, parse) == Normalize(b, bindings, parse)
       <==> forall n, g :: |Positions(a, bindings, parse, n, g)| == |Positions(b, bindings, parse, n, g)|
  {
    hide Normals, Positions, Domain;
    NormalizedSays(a, bindings, parse);
    NormalizedSays(b, bindings, parse);
    var x, y := Normalize(a, bindings, parse).value, Normalize(b, bindings, parse).value;
    if forall n, g :: |Positions(a, bindings, parse, n, g)| == |Positions(b, bindings, parse, n, g)| {
      forall c: NormalCall
        ensures multiset(x)[c] == multiset(y)[c]
      {
        assert c == NormalCall(c.name, c.arguments);
        assert multiset(x)[NormalCall(c.name, c.arguments)] == |Positions(a, bindings, parse, c.name, c.arguments)|;
      }
      assert multiset(x) == multiset(y);
      OrderedSame(x, y);
    }
  }

  lemma OrderedSame(x: seq<NormalCall>, y: seq<NormalCall>)
    requires multiset(x) == multiset(y)
    requires forall i, j :: 0 <= i < j < |x| ==> Leq(CallKey(x[i]), CallKey(x[j]))
    requires forall i, j :: 0 <= i < j < |y| ==> Leq(CallKey(y[i]), CallKey(y[j]))
    ensures x == y
  {
    SortedUnique(x, y, CallKey);
  }

  /** A call that cannot be normalised, and why. */
  predicate Fails(call: WireCall, bindings: seq<Binding>, parse: Parser, e: NormalError) {
    if !exists b :: b in bindings && b.wireName == call.wireName then e == UnknownWireName
    else parse(call.argumentsJson).None? && e == InvalidArguments
  }

  /** With usable bindings, the error reported is that of the first call that cannot be normalised. */
  lemma {:induction false} FirstFailure(
    calls: seq<WireCall>, bindings: seq<Binding>, parse: Parser, e: NormalError)
    requires bindings != [] && WireNamesUnique(bindings)
    ensures Normalize(calls, bindings, parse) == Err(e)
       <==> exists i :: 0 <= i < |calls| && Fails(calls[i], bindings, parse, e)
                   && Normalize(calls[..i], bindings, parse).Ok?
    decreases |calls|
  {
    hide WireNamesUnique, Domain, Normal, Fails;
    DomainSize(bindings);
    if calls != [] {
      var shorter, last := calls[..|calls| - 1], calls[|calls| - 1];
      FirstFailure(shorter, bindings, parse, e);
      NormalFails(bindings, parse, last, e);
      assert forall i :: 0 <= i < |shorter| ==> calls[..i] == shorter[..i] && calls[i] == shorter[i];
      if Normalize(shorter, bindings, parse).Err? {
        forall i | 0 <= i < |calls| && Normalize(calls[..i], bindings, parse).Ok?
          ensures i < |shorter|
        {
        }
      } else {
        forall i | 0 <= i < |shorter|
          ensures !Fails(calls[i], bindings, parse, e)
        {
          NormalsPrefix(shorter, bindings, parse, i);
        }
      }
    }
  }

  lemma NormalFails(bindings: seq<Binding>, parse: Parser, call: WireCall, e: NormalError)
    ensures Normal(bindings, parse, call) == Err(e) <==> Fails(call, bindings, parse, e)
  {
    hide Lookup;
    LookupFinds(bindings, call.wireName);
  }

  lemma {:induction false} NormalsPrefix(calls: seq<WireCall>, bindings: seq<Binding>, parse: Parser, i: nat)
    requires i <= |calls| && Normals(bindings, parse, calls).Ok?
    ensures Normals(bindings, parse, calls[..i]).Ok?
    decreases |calls|
  {
    hide Normal;
    if i == |calls| {
      assert calls[..i] == calls;
    } else {
      NormalsPrefix(calls[..|calls| - 1], bindings, parse, i);
      assert calls[..|calls| - 1][..i] == calls[..i];
    }
  }

  /** Normalising fails exactly for missing or repeated bindings, an unknown name or invalid arguments. */
  lemma {:induction false} NormalsExactly(bindings: seq<Binding>, parse: Parser, calls: seq<WireCall>)
    ensures Normals(bindings, parse, calls).Ok? <==> forall c :: c in calls ==> Normal(bindings, parse, c).Ok?
    decreases |calls|
  {
    hide Normal;
    if calls != [] {
      var shorter, last := calls[..|calls| - 1], calls[|calls| - 1];
      NormalsExactly(bindings, parse, shorter);
      assert last in calls && forall c :: c in calls <==> c in shorter || c == last;
    }
  }

  lemma {:induction false} LookupFinds(bindings: seq<Binding>, wire: int)
    ensures Lookup(bindings, wire).Some? <==> exists b :: b in bindings && b.wireName == wire
    decreases |bindings|
  {
    if bindings != [] {
      var shorter, last := bindings[..|bindings| - 1], bindings[|bindings| - 1];
      LookupFinds(shorter, wire);
      assert last in bindings && forall b :: b in bindings <==> b in shorter || b == last;
    }
  }

  lemma NormalizesExactly(calls: seq<WireCall>, bindings: seq<Binding>, parse: Parser)
    ensures Normalize(calls, bindings, parse).Ok?
       <==> && bindings != [] && WireNamesUnique(bindings)
            && forall c :: c in calls ==>
                 (exists b :: b in bindings && b.wireName == c.wireName) && parse(c.argumentsJson).Some?
  {
    hide Normals, WireNamesUnique, Lookup;
    DomainSize(bindings);
    NormalsExactly(bindings, parse, calls);
    forall c
      ensures Normal(bindings, parse, c).Ok?
         <==> (exists b :: b in bindings && b.wireName == c.wireName) && parse(c.argumentsJson).Some?
    {
      LookupFinds(bindings, c.wireName);
    }
  }

  // ---------------------------------------------------------------- the loops

  /** The reverse map from wire names to official names. */
  method BuildReverse(bindings: seq<Binding>) returns (reverse: map<int, int>)
    ensures reverse.Keys == Domain(bindings)
    ensures forall w :: Lookup(bindings, w) == if w in reverse then Some(reverse[w]) else None
  {
    reverse := map[];
    for i := 0 to |bindings|
      invariant reverse.Keys == Domain(bindings[..i])
      invariant forall w :: Lookup(bindings[..i], w) == if w in reverse then Some(reverse[w]) else None
    {
      assert bindings[..i + 1][..i] == bindings[..i];
      assert WireNames(bindings[..i + 1]) == WireNames(bindings[..i]) + [bindings[i].wireName];
      ValuesGrow(WireNames(bindings[..i]), bindings[i].wireName);
      reverse := reverse[bindings[i].wireName := bindings[i].officialName];
    }
    assert bindings[..|bindings|] == bindings;
  }

  lemma {:induction false} NormalErrorSticks(bindings: seq<Binding>, parse: Parser, calls: seq<WireCall>, n: nat)
    requires n <= |calls| && Normals(bindings, parse, calls[..n]).Err?
    ensures Normals(bindings, parse, calls) == Normals(bindings, parse, calls[..n])
    decreases |calls|
  {
    hide Normal;
    if n == |calls| {
      assert calls[..n] == calls;
    } else {
      assert calls[..|calls| - 1][..n] == calls[..n];
      NormalErrorSticks(bindings, parse, calls[..|calls| - 1], n);
    }
  }

  /** `normalize_bfcl_v4_tool_calls`. */
  method NormalizeCalls(calls: seq<WireCall>, bindings: seq<Binding>, parse: Parser)
    returns (r: Result<seq<NormalCall>, NormalError>)
    ensures r == Normalize(calls, bindings, parse)
  {
    hide Lookup, Domain;
    if bindings == [] {
      return Err(NoBindings);
    }
    var reverse := BuildReverse(bindings);
    if |reverse.Keys| != |bindings| {
      return Err(DuplicateWireNames);
    }
    var normals: seq<NormalCall> := [];
    for i := 0 to |calls|
      invariant Normals(bindings, parse, calls[..i]) == Ok(normals)
    {
      assert calls[..i + 1][..i] == calls[..i];
      assert Lookup(bindings, calls[i].wireName)
          == if calls[i].wireName in reverse then Some(reverse[calls[i].wireName]) else None;
      if calls[i].wireName !in reverse {
        NormalErrorSticks(bindings, parse, calls, i + 1);
        return Err(UnknownWireName);
      }
      var arguments := parse(calls[i].argumentsJson);
      if arguments.None? {
        NormalErrorSticks(bindings, parse, calls, i + 1);
        return Err(InvalidArguments);
      }
      normals := normals + [NormalCall(reverse[calls[i].wireName], arguments.value)];
    }
    assert calls[..|calls|] == calls;
    return Ok(SortBy(normals, CallKey));
  }

  // ---------------------------------------------------------------- plurality

  datatype Sample = Sample(sampleId: int, calls: Option<seq<WireCall>>)

  type Label = Option<seq<NormalCall>>

  datatype Selection = Selection(
    sampleId: int, index: nat, calls: Option<seq<WireCall>>, output: Label, plurality: nat, tie: bool,
    allAbstained: bool)

  datatype SelectError = NoSamples | RepeatedSampleIds

  /** A sample without calls, or whose calls do not normalise, abstains. */
  function LabelOf(sample: Sample, bindings: seq<Binding>, parse: Parser): Label {
    if sample.calls.None? then None
    else
      var normal := Normalize(sample.calls.value, bindings, parse);
      if normal.Ok? then Some(normal.value) else None
  }

  /** Abstaining is exactly giving no calls, having no usable bindings, or making a call that cannot be normalised. */
  lemma AbstainsExactly(sample: Sample, bindings: seq<Binding>, parse: Parser)
    ensures LabelOf(sample, bindings, parse).None?
       <==> || sample.calls.None? || bindings == [] || !WireNamesUnique(bindings)
            || exists c, e :: c in sample.calls.value && Fails(c, bindings, parse, e)
    ensures LabelOf(sample, bindings, parse).Some? ==>
              sample.calls.Some? && Normalize(sample.calls.value, bindings, parse) == Ok(LabelOf(sample, bindings, parse).value)
  {
    hide WireNamesUnique;
    if sample.calls.Some? {
      NormalizesExactly(sample.calls.value, bindings, parse);
      forall c
        ensures (exists e :: Fails(c, bindings, parse, e))
           <==> !((exists b :: b in bindings && b.wireName == c.wireName) && parse(c.argumentsJson).Some?)
      {
        assert Fails(c, bindings, parse, UnknownWireName) || Fails(c, bindings, parse, InvalidArguments)
          <==> !((exists b :: b in bindings && b.wireName == c.wireName) && parse(c.argumentsJson).Some?);
      }
    }
  }

  function LabelsOf(samples: seq<Sample>, bindings: seq<Binding>, parse: Parser): (labels: seq<Label>)
    ensures |labels| == |samples|
    ensures forall i :: 0 <= i < |labels| ==> labels[i] == LabelOf(samples[i], bindings, parse)
  {
    seq(|samples|, i requires 0 <= i < |samples| => LabelOf(samples[i], bindings, parse))
  }

  /** `vote` is a most frequent non-abstaining label. */
  ghost predicate IsWinner(labels: seq<Label>, vote: Label) {
    && vote.Some? && vote in labels
    && forall other :: other in labels && other.Some? ==> multiset(labels)[other] <= multiset(labels)[vote]
  }

  /** What the selection must be: the first sample whose label wins, or the first sample if all abstain. */
  ghost predicate IsPlurality(samples: seq<Sample>, labels: seq<Label>, s: Selection) {
    && |labels| == |samples| && s.index < |samples|
    && s.sampleId == samples[s.index].sampleId && s.calls == samples[s.index].calls
    && s.output == labels[s.index]
    && (s.allAbstained <==> forall vote :: vote in labels ==> vote.None?)
    && (s.allAbstained ==> s.index == 0 && s.plurality == 0 && !s.tie)
    && (!s.allAbstained ==>
          && IsWinner(labels, labels[s.index]) && (forall i :: 0 <= i < s.index ==> !IsWinner(labels, labels[i]))
          && s.plurality == multiset(labels)[labels[s.index]]
          && (s.tie <==> exists other :: other != labels[s.index] && IsWinner(labels, other)))
  }

  /** The specification determines the selection. */
  lemma PluralityUnique(samples: seq<Sample>, labels: seq<Label>, s: Selection, t: Selection)
    requires IsPlurality(samples, labels, s) && IsPlurality(samples, labels, t)
    ensures s == t
  {
    hide IsWinner;
    assert s.allAbstained == t.allAbstained;
    if !s.allAbstained {
      assert !(s.index < t.index) && !(t.index < s.index);
    }
  }

  function CountIn(counts: map<Label, nat>, vote: Label): nat {
    if vote in counts then counts[vote] else 0
  }

  /** `counts` holds the frequencies of the non-abstaining labels. */
  ghost predicate Counted(labels: seq<Label>, counts: map<Label, nat>) {
    && (forall vote :: vote in counts <==> vote in labels && vote.Some?)
    && (forall vote :: vote in counts ==> counts[vote] == multiset(labels)[vote])
  }

  method CountLabels(labels: seq<Label>) returns (counts: map<Label, nat>)
    ensures Counted(labels, counts)
  {
    counts := map[];
    for i := 0 to |labels|
      invariant Counted(labels[..i], counts)
    {
      assert labels[..i + 1] == labels[..i] + [labels[i]];
      if labels[i].Some? {
        counts := counts[labels[i] := CountIn(counts, labels[i]) + 1];
      }
    }
    assert labels[..|labels|] == labels;
  }

  /** `max(counts.values())`. */
  method MaxCount(counts: map<Label, nat>) returns (most: nat)
    requires counts != map[]
    ensures exists vote :: vote in counts && counts[vote] == most
    ensures forall vote :: vote in counts ==> counts[vote] <= most
  {
    var rest := counts.Keys;
    var first :| first in rest;
    most := counts[first];
    rest := rest - {first};
    while rest != {}
      invariant rest <= counts.Keys
      invariant exists vote :: vote in counts && counts[vote] == most
      invariant forall vote :: vote in counts && vote !in rest ==> counts[vote] <= most
      decreases |rest|
    {
      var vote :| vote in rest;
      if counts[vote] > most {
        most := counts[vote];
      }
      rest := rest - {vote};
    }
  }

  lemma WinnersAreMost(labels: seq<Label>, counts: map<Label, nat>, most: nat, vote: Label)
    requires Counted(labels, counts)
    requires exists top :: top in counts && counts[top] == most
    requires forall l :: l in counts ==> counts[l] <= most
    ensures IsWinner(labels, vote) <==> vote in counts && counts[vote] == most
  {
    var top :| top in counts && counts[top] == most;
    if IsWinner(labels, vote) {
      assert multiset(labels)[top] <= multiset(labels)[vote];
    }
  }

  function SampleIds(samples: seq<Sample>): (ids: seq<int>)
    ensures |ids| == |samples| && forall i :: 0 <= i < |ids| ==> ids[i] == samples[i].sampleId
  {
    seq(|samples|, i requires 0 <= i < |samples| => samples[i].sampleId)
  }

  /** `select_bfcl_v4_pure_at_b_plurality`. */
  method SelectPlurality(samples: seq<Sample>, bindings: seq<Binding>, parse: Parser)
    returns (r: Result<Selection, SelectError>)
    ensures r.Err? && r.error == NoSamples <==> samples == []
    ensures r.Err? && r.error == RepeatedSampleIds <==> !NoDuplicates(SampleIds(samples))
    ensures r.Ok? ==> IsPlurality(samples, LabelsOf(samples, bindings, parse), r.value)
  {
    assert samples == [] ==> NoDuplicates(SampleIds(samples));
    hide NoDuplicates, IsPlurality, Values;
    DistinctSize(SampleIds(samples));
    if samples == [] {
      return Err(NoSamples);
    }
    if |Values(SampleIds(samples))| != |samples| {
      return Err(RepeatedSampleIds);
    }
    var labels: seq<Label> := [];
    for i := 0 to |samples|
      invariant |labels| == i
      invariant forall k :: 0 <= k < i ==> labels[k] == LabelOf(samples[k], bindings, parse)
    {
      if samples[i].calls.None? {
        labels := labels + [None];
      } else {
        var normal := NormalizeCalls(samples[i].calls.value, bindings, parse);
        labels := labels + [if normal.Ok? then Some(normal.value) else None];
      }
    }
    assert labels == LabelsOf(samples, bindings, parse);
    var selection := Pick(samples, labels);
    return Ok(selection);
  }

  /** Counting the labels and taking the first winner. */
  method Pick(samples: seq<Sample>, labels: seq<Label>) returns (s: Selection)
    requires |labels| == |samples| > 0
    ensures IsPlurality(samples, labels, s)
  {
    hide IsWinner;
    var counts := CountLabels(labels);
    if counts == map[] {
      forall vote | vote in labels
        ensures vote.None?
      {
        assert vote !in counts;
      }
      return Selection(samples[0].sampleId, 0, samples[0].calls, labels[0], 0, false, true);
    }
    var most := MaxCount(counts);
    var winners := set vote | vote in counts && counts[vote] == most;
    forall vote
      ensures vote in winners <==> IsWinner(labels, vote)
    {
      WinnersAreMost(labels, counts, most, vote);
    }
    var index := FirstWinner(labels, winners);
    TieIffTwo(winners, labels[index]);
    assert IsWinner(labels, labels[index]);
    WinnerFacts(labels, counts, labels[index]);
    s := Selection(
      samples[index].sampleId, index, samples[index].calls, labels[index], most, |winners| > 1, false);
  }

  lemma WinnerFacts(labels: seq<Label>, counts: map<Label, nat>, vote: Label)
    requires Counted(labels, counts) && IsWinner(labels, vote)
    ensures vote in labels && vote.Some? && vote in counts && counts[vote] == multiset(labels)[vote]
  {
  }

  /** `next(index for index, vote in enumerate(labels) if vote in winners)`. */
  method FirstWinner(labels: seq<Label>, winners: set<Label>) returns (index: nat)
    requires exists vote :: vote in winners && vote in labels
    ensures index < |labels| && labels[index] in winners
    ensures forall i :: 0 <= i < index ==> labels[i] !in winners
  {
    index := 0;
    ghost var w :| w in winners && w in labels;
    ghost var at :| 0 <= at < |labels| && labels[at] == w;
    while labels[index] !in winners
      invariant index <= at
      invariant forall i :: 0 <= i < index ==> labels[i] !in winners
      decreases at - index
    {
      index := index + 1;
    }
  }

  lemma TieIffTwo(winners: set<Label>, winner: Label)
    requires winner in winners
    ensures |winners| > 1 <==> exists other :: other != winner && other in winners
  {
    var rest := winners - {winner};
    assert winners == rest + {winner};
    if rest != {} {
      var other :| other in rest;
    }
  }
}
