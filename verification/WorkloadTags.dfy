/** Mirroring of structured tags into labels and back. */
module WorkloadTags {
  import opened Types
  import opened Strings

  const LABEL_TEAM := "kranix.io/team"
  const LABEL_ENVIRONMENT := "kranix.io/environment"
  const LABEL_COST_CENTER := "kranix.io/cost-center"

  type Labels = map<string, string>

  function LabelOf(labels: Labels, key: string): string {
    if key in labels then labels[key] else ""
  }

  function OrLabel(value: string, labels: Labels, key: string): string {
    if value == "" then Trim(LabelOf(labels, key)) else value
  }

  /** Fills empty tags from the well-known labels. */
  function SyncFromLabels(w: Workload): Workload {
    match w.labels
    case None => w
    case Some(labels) =>
      var t := if w.tags.Some? then w.tags.value else Tags("", "", "", []);
      w.(tags := Some(t.(
        team := OrLabel(t.team, labels, LABEL_TEAM),
        environment := OrLabel(t.environment, labels, LABEL_ENVIRONMENT),
        costCenter := OrLabel(t.costCenter, labels, LABEL_COST_CENTER))))
  }

  function SetLabel(labels: Labels, key: string, value: string): Labels {
    if Trim(value) != "" then labels[key := Trim(value)] else labels
  }

  function SetCustom(labels: Labels, custom: seq<(string, string)>): Labels {
    if custom == [] then labels else
      var rest := SetCustom(labels, custom[..|custom| - 1]);
      var (k, v) := custom[|custom| - 1];
      if Trim(k) == "" then rest else rest[Trim(k) := Trim(v)]
  }

  function LabelsFrom(labels: Labels, t: Tags): Labels {
    SetCustom(
      SetLabel(SetLabel(SetLabel(labels, LABEL_TEAM, t.team), LABEL_ENVIRONMENT, t.environment),
               LABEL_COST_CENTER, t.costCenter),
      t.custom)
  }

  /** Copies tags into labels, or labels into missing tags. */
  function Apply(w: Workload): Workload {
    match w.tags
    case None => SyncFromLabels(w)
    case Some(t) => w.(labels := Some(LabelsFrom(if w.labels.Some? then w.labels.value else map[], t)))
  }

  function Lookup(labels: Labels, key: string): Option<string> {
    if key in labels then Some(labels[key]) else None
  }

  /** What the custom tags put under a label: the last one whose key trims to it decides. */
  function CustomValue(custom: seq<(string, string)>, key: string): Option<string> {
    if custom == [] then None else
      var (k, v) := custom[|custom| - 1];
      if Trim(k) == key then Some(Trim(v)) else CustomValue(custom[..|custom| - 1], key)
  }

  /** The structured tag that is mirrored to a label. */
  function TagFor(t: Tags, key: string): string {
    if key == LABEL_TEAM then t.team
    else if key == LABEL_ENVIRONMENT then t.environment
    else if key == LABEL_COST_CENTER then t.costCenter
    else ""
  }

  /** The tag that a workload is read to have: its own, or for want of that the trimmed label. */
  function ReadTag(w: Workload, key: string): string {
    if w.tags.Some? && TagFor(w.tags.value, key) != "" then TagFor(w.tags.value, key)
    else if w.labels.Some? && key in w.labels.value then Trim(w.labels.value[key])
    else ""
  }

  predicate Untagged(w: Workload) {
    w.tags.None? && w.labels.None?
  }

  /** Synchronising writes down the three tags that the workload is read to have and leaves its custom tags alone. */
  lemma SyncReads(w: Workload)
    ensures var w' := SyncFromLabels(w);
            && w' == w.(tags := w'.tags) && (w'.tags.None? <==> Untagged(w))
            && (w'.tags.Some? ==>
                  && w'.tags.value.team == ReadTag(w, "kranix.io/team")
                  && w'.tags.value.environment == ReadTag(w, "kranix.io/environment")
                  && w'.tags.value.costCenter == ReadTag(w, "kranix.io/cost-center")
                  && w'.tags.value.custom == if w.tags.Some? then w.tags.value.custom else [])
  {
    hide Trim;
    KeysDiffer();
    EmptyTrims();
  }

  /** Mirroring keeps the tags there are; without any it writes down those that the labels are read to give. */
  lemma ApplyTags(w: Workload)
    ensures if w.tags.Some? then Apply(w).tags == w.tags && Apply(w).labels.Some? else
              && Apply(w).labels == w.labels && (Apply(w).tags.Some? <==> w.labels.Some?)
              && (w.labels.Some? ==>
                    Apply(w).tags == Some(Tags(ReadTag(w, "kranix.io/team"), ReadTag(w, "kranix.io/environment"),
                                               ReadTag(w, "kranix.io/cost-center"), [])))
  {
    hide Trim, LabelsFrom;
    if w.tags.None? {
      SyncReads(w);
    }
  }

  lemma {:induction false} SetCustomAt(labels: Labels, custom: seq<(string, string)>, key: string)
    requires key != ""
    ensures Lookup(SetCustom(labels, custom), key) ==
            if CustomValue(custom, key).Some? then CustomValue(custom, key) else Lookup(labels, key)
  {
    hide Trim;
    if custom != [] {
      SetCustomAt(labels, custom[..|custom| - 1], key);
    }
  }

  /** What mirroring leaves under any label: a custom tag, else its structured tag, else what was there. */
  lemma LabelsFromAt(labels: Labels, t: Tags, key: string)
    requires key != ""
    ensures Lookup(LabelsFrom(labels, t), key) ==
            if CustomValue(t.custom, key).Some? then CustomValue(t.custom, key)
            else if Trim(TagFor(t, key)) != "" then Some(Trim(TagFor(t, key)))
            else Lookup(labels, key)
  {
    hide Trim, SetCustom;
    KeysDiffer();
    EmptyTrims();
    SetCustomAt(
      SetLabel(SetLabel(SetLabel(labels, LABEL_TEAM, t.team), LABEL_ENVIRONMENT, t.environment),
               LABEL_COST_CENTER, t.costCenter),
      t.custom, key);
  }

  lemma KeysDiffer()
    ensures LABEL_TEAM != LABEL_ENVIRONMENT && LABEL_TEAM != LABEL_COST_CENTER
    ensures LABEL_ENVIRONMENT != LABEL_COST_CENTER
  {
    assert |LABEL_TEAM| == 14 && |LABEL_ENVIRONMENT| == 21 && |LABEL_COST_CENTER| == 21;
    assert LABEL_ENVIRONMENT[10] == 'e' && LABEL_COST_CENTER[10] == 'c';
  }

  lemma EmptyTrims()
    ensures Trim("") == ""
  {
    TrimEnds("");
  }

  /** A tag left empty by its label stays empty when the tags are mirrored once more. */
  lemma EmptyTagSettles(labels: Labels, t: Tags, key: string)
    requires key != "" && TagFor(t, key) == "" && Trim(LabelOf(labels, key)) == ""
    requires CustomValue(t.custom, key).Some? ==> Lookup(labels, key) == CustomValue(t.custom, key)
    ensures Trim(LabelOf(LabelsFrom(labels, t), key)) == ""
  {
    hide Trim, LabelsFrom, CustomValue;
    EmptyTrims();
    LabelsFromAt(labels, t, key);
  }

  /** Mirroring and synchronising again changes no tag. */
  lemma TagsSettle(b: Workload)
    ensures var r := SyncFromLabels(Apply(b)); SyncFromLabels(Apply(r)).tags == r.tags
  {
    hide Trim, LabelsFrom, CustomValue;
    var a := Apply(b);
    var r := SyncFromLabels(a);
    EmptyTrims();
    if r.tags.Some? && r.labels.Some? {
      var t, labels := r.tags.value, r.labels.value;
      SettlesAt(b, LABEL_TEAM);
      SettlesAt(b, LABEL_ENVIRONMENT);
      SettlesAt(b, LABEL_COST_CENTER);
    }
  }

  lemma SettlesAt(b: Workload, key: string)
    requires key == LABEL_TEAM || key == LABEL_ENVIRONMENT || key == LABEL_COST_CENTER
    ensures var r := SyncFromLabels(Apply(b));
            r.tags.Some? && r.labels.Some? && TagFor(r.tags.value, key) == "" ==>
              Trim(LabelOf(LabelsFrom(r.labels.value, r.tags.value), key)) == ""
  {
    hide Trim, LabelsFrom;
    KeysDiffer();
    EmptyTrims();
    var r := SyncFromLabels(Apply(b));
    if r.tags.Some? && r.labels.Some? && TagFor(r.tags.value, key) == "" {
      var before := if b.labels.Some? then b.labels.value else map[];
      if b.tags.Some? {
        LabelsFromAt(before, b.tags.value, key);
      }
      EmptyTagSettles(r.labels.value, r.tags.value, key);
    }
  }
}
