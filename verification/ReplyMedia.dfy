/** The selection of gallery images for a reply. */
module ReplyMedia {
  import opened Text
  import opened EvidenceSet
  import opened ValidationPipeline

  datatype Link = Link(id: string, mediaId: string, itemId: string, variantId: Option<string>, active: bool, approved: bool)

  /** What the model answers to the options it is offered. */
  datatype Choice = Choice(ids: seq<string>, reply: string)

  /** The media repository and the selecting model; None stands for an error or a link that
      is no longer approved. */
  datatype Media = Media(
    gallery: Selection -> Option<seq<Link>>,
    approvedLink: string -> Option<Link>,
    choose: seq<Link> -> Option<Choice>)

  // ---------------------------------------------------------------- specification

  /** A gallery image that may be offered for a selected reference. */
  predicate Offerable(m: Media, s: Selection, l: Link) {
    && l.itemId == s.itemId && l.variantId == s.variantId && l.active && l.approved
    && m.approvedLink(l.id).Some? && m.approvedLink(l.id).value.mediaId == l.mediaId
  }

  function Find(ls: seq<Link>, id: string): Option<Link> {
    if ls == [] then None
    else if ls[|ls| - 1].id == id then Some(ls[|ls| - 1])
    else Find(ls[..|ls| - 1], id)
  }

  /** The options with those of one gallery: up to twelve, each ID once. */
  function Gather(m: Media, s: Selection, gallery: seq<Link>, options: seq<Link>): seq<Link> {
    if gallery == [] then options
    else
      var before, l := Gather(m, s, gallery[..|gallery| - 1], options), gallery[|gallery| - 1];
      if |before| < 12 && Offerable(m, s, l) && Find(before, l.id).None? then before + [l] else before
  }

  /** The options for all selected references; None when a gallery cannot be read. */
  function Options(m: Media, selected: seq<Selection>): Option<seq<Link>> {
    if selected == [] then Some([])
    else
      var s := selected[|selected| - 1];
      match Options(m, selected[..|selected| - 1])
      case None => None
      case Some(before) =>
        if Trim(s.itemId) == "" then Some(before)
        else if m.gallery(s).None? then None
        else Some(Gather(m, s, m.gallery(s).value, before))
  }

  /** The chosen options in order; None when one was not offered or is repeated. */
  function Pick(options: seq<Link>, ids: seq<string>): Option<seq<Link>> {
    if ids == [] then Some([])
    else
      match Pick(options, ids[..|ids| - 1])
      case None => None
      case Some(before) =>
        var l := Find(options, ids[|ids| - 1]);
        if l.None? || ids[|ids| - 1] in ids[..|ids| - 1] then None else Some(before + [l.value])
  }

  /** The model's choice among the options, when it is asked and answers within bounds. */
  function ChoiceOf(media: Option<Media>, d: Decision): Option<Choice> {
    if media.None? || !d.capability.RespondWithoutAction? || d.selected == [] || |d.selected| > 3 then None
    else
      match Options(media.value, d.selected)
      case None => None
      case Some(options) =>
        if options == [] || media.value.choose(options).None? || |media.value.choose(options).value.ids| > 4 then None
        else if Pick(options, media.value.choose(options).value.ids).None? then None
        else media.value.choose(options)
  }

  /** The images to send. */
  function Selected(media: Option<Media>, d: Decision): seq<Link> {
    if ChoiceOf(media, d).None? then [] else Pick(Options(media.value, d.selected).value, ChoiceOf(media, d).value.ids).value
  }

  /** The wording the model gave with the images it chose. */
  function Wording(media: Option<Media>, d: Decision): string {
    if ChoiceOf(media, d).None? then "" else ChoiceOf(media, d).value.reply
  }

  // ---------------------------------------------------------------- what may be sent

  /** An active and approved image in the gallery of this very item and variant, whose link is
      still approved for the same medium. */
  ghost predicate FromGallery(m: Media, s: Selection, l: Link) {
    && m.gallery(s).Some? && l in m.gallery(s).value
    && l.itemId == s.itemId && l.variantId == s.variantId && l.active && l.approved
    && m.approvedLink(l.id).Some? && m.approvedLink(l.id).value.mediaId == l.mediaId
  }

  /** An approved image of something the decision selected. */
  ghost predicate Admissible(m: Media, selected: seq<Selection>, l: Link) {
    exists s :: s in selected && FromGallery(m, s, l)
  }

  ghost predicate AllAdmissible(m: Media, selected: seq<Selection>, ls: seq<Link>) {
    forall l :: l in ls ==> Admissible(m, selected, l)
  }

  lemma {:induction false} GatherAdmissible(m: Media, selected: seq<Selection>, s: Selection, all: seq<Link>, n: nat, options: seq<Link>)
    requires s in selected && m.gallery(s) == Some(all) && n <= |all|
    requires AllAdmissible(m, selected, options) && |options| <= 12
    ensures AllAdmissible(m, selected, Gather(m, s, all[..n], options)) && |Gather(m, s, all[..n], options)| <= 12
  {
    if n > 0 {
      assert all[..n][..n - 1] == all[..n - 1];
      GatherAdmissible(m, selected, s, all, n - 1, options);
      assert Offerable(m, s, all[n - 1]) ==> FromGallery(m, s, all[n - 1]);
    }
  }

  lemma {:induction false} OptionsAdmissible(m: Media, selected: seq<Selection>)
    ensures var r := Options(m, selected); r.Some? ==> AllAdmissible(m, selected, r.value) && |r.value| <= 12
  {
    if selected != [] {
      var init, s := selected[..|selected| - 1], selected[|selected| - 1];
      OptionsAdmissible(m, init);
      var before := Options(m, init);
      if before.Some? {
        forall l | l in before.value ensures Admissible(m, selected, l) {
          var t :| t in init && FromGallery(m, t, l);
          assert t in selected;
        }
        if m.gallery(s).Some? {
          var all := m.gallery(s).value;
          GatherAdmissible(m, selected, s, all, |all|, before.value);
          assert all[..|all|] == all;
        }
      }
    }
  }

  ghost predicate DistinctIds(ls: seq<Link>) { forall i, j :: 0 <= i < j < |ls| ==> ls[i].id != ls[j].id }

  predicate HasId(ls: seq<Link>, id: string) { exists i :: 0 <= i < |ls| && ls[i].id == id }

  lemma {:induction false} FindIn(ls: seq<Link>, id: string)
    ensures Find(ls, id).Some? <==> HasId(ls, id)
    ensures Find(ls, id).Some? ==> Find(ls, id).value in ls && Find(ls, id).value.id == id
  {
    if ls != [] {
      var init := ls[..|ls| - 1];
      FindIn(init, id);
      assert forall i :: 0 <= i < |init| ==> init[i] == ls[i];
    }
  }

  lemma {:induction false} GatherAll(m: Media, s: Selection, gallery: seq<Link>, options: seq<Link>, l: Link)
    requires DistinctIds(options)
    ensures var r := Gather(m, s, gallery, options);
      && DistinctIds(r) && |options| <= |r| && r[..|options|] == options
      && (|r| < 12 && l in gallery && Offerable(m, s, l) ==> HasId(r, l.id))
  {
    if gallery != [] {
      var init, last := gallery[..|gallery| - 1], gallery[|gallery| - 1];
      GatherAll(m, s, init, options, l);
      var before := Gather(m, s, init, options);
      FindIn(before, last.id);
      var r := Gather(m, s, gallery, options);
      if HasId(before, l.id) { HasIdLater(before, r, l.id); }
      if r != before { assert r[|before|] == last; }
    }
  }

  lemma HasIdLater(a: seq<Link>, b: seq<Link>, id: string)
    requires |a| <= |b| && b[..|a|] == a && HasId(a, id)
    ensures HasId(b, id)
  {
    var i :| 0 <= i < |a| && a[i].id == id;
    assert b[i] == b[..|a|][i];
  }

  /** The options are distinct, and unless there are twelve they hold every image that may be
      sent. */
  lemma {:induction false} OptionsComplete(m: Media, selected: seq<Selection>, s: Selection, l: Link)
    requires Options(m, selected).Some?
    ensures var r := Options(m, selected).value;
      DistinctIds(r) && (|r| < 12 && s in selected && Trim(s.itemId) != "" && FromGallery(m, s, l) ==> HasId(r, l.id))
  {
    if selected != [] {
      var init, last := selected[..|selected| - 1], selected[|selected| - 1];
      OptionsComplete(m, init, s, l);
      var before, r := Options(m, init).value, Options(m, selected).value;
      if Trim(last.itemId) != "" {
        GatherAll(m, last, m.gallery(last).value, before, l);
        if HasId(before, l.id) { HasIdLater(before, r, l.id); }
      }
    }
  }

  /** The picked links are offered ones, and bear the chosen IDs in order, each once. */
  lemma {:induction false} PickIs(options: seq<Link>, ids: seq<string>)
    ensures Pick(options, ids).Some? <==> Pickable(options, ids)
    ensures Pick(options, ids).Some? ==>
      var r := Pick(options, ids).value; |r| == |ids| && forall i :: 0 <= i < |r| ==> r[i].id == ids[i] && r[i] in options
  {
    if ids != [] {
      PickIs(options, ids[..|ids| - 1]);
      FindIn(options, ids[|ids| - 1]);
    }
  }

  /** Each ID is one of the options' and occurs once. */
  ghost predicate Pickable(options: seq<Link>, ids: seq<string>) {
    && (forall i :: 0 <= i < |ids| ==> HasId(options, ids[i]))
    && (forall i, j :: 0 <= i < j < |ids| ==> ids[i] != ids[j])
  }

  /** The model's choice is used: it was asked, with at most three selected references whose
      galleries could be read, and chose at most four of the options, each once. */
  ghost predicate Used(media: Option<Media>, d: Decision, options: seq<Link>, c: Choice) {
    && media.Some? && d.capability.RespondWithoutAction? && 1 <= |d.selected| <= 3
    && Options(media.value, d.selected) == Some(options) && options != []
    && media.value.choose(options) == Some(c) && |c.ids| <= 4 && Pickable(options, c.ids)
  }

  /** The images sent are exactly those of a choice that is used, in its order, and come with
      its wording; each is approved and from the gallery of a selected item and variant. */
  lemma SelectedTheorem(media: Option<Media>, d: Decision)
    ensures var r := Selected(media, d);
      && |r| <= 4 && DistinctIds(r)
      && (r != [] ==> media.Some? && AllAdmissible(media.value, d.selected, r))
      && (forall options, c :: Used(media, d, options, c) ==>
            |r| == |c.ids| && Wording(media, d) == c.reply && forall i :: 0 <= i < |r| ==> r[i].id == c.ids[i] && r[i] in options)
      && ((forall options, c :: !Used(media, d, options, c)) ==> r == [] && Wording(media, d) == "")
  {
    if media.Some? && Options(media.value, d.selected).Some? {
      OptionsAdmissible(media.value, d.selected);
      var options := Options(media.value, d.selected).value;
      if media.value.choose(options).Some? {
        var c := media.value.choose(options).value;
        PickIs(options, c.ids);
        assert ChoiceOf(media, d).Some? <==> Used(media, d, options, c);
      }
    }
  }

  // ---------------------------------------------------------------- the loops

  method GatherGallery(m: Media, s: Selection, gallery: seq<Link>, start: seq<Link>) returns (options: seq<Link>)
    ensures options == Gather(m, s, gallery, start)
  {
    options := start;
    for i := 0 to |gallery|
      invariant options == Gather(m, s, gallery[..i], start)
    {
      assert gallery[..i + 1][..i] == gallery[..i];
      if |options| >= 12 {
        FullStays(m, s, gallery, start, i);
        break;
      }
      var l := gallery[i];
      if !Offerable(m, s, l) || Find(options, l.id).Some? { continue; }
      options := options + [l];
    }
    assert gallery[..|gallery|] == gallery;
  }

  lemma {:induction false} FullStays(m: Media, s: Selection, gallery: seq<Link>, start: seq<Link>, i: nat)
    requires i <= |gallery| && |Gather(m, s, gallery[..i], start)| >= 12
    ensures Gather(m, s, gallery, start) == Gather(m, s, gallery[..i], start)
    decreases |gallery|
  {
    if i == |gallery| {
      assert gallery[..i] == gallery;
    } else {
      assert gallery[..|gallery| - 1][..i] == gallery[..i];
      FullStays(m, s, gallery[..|gallery| - 1], start, i);
    }
  }

  method PickChosen(options: seq<Link>, ids: seq<string>) returns (r: Option<seq<Link>>)
    ensures r == Pick(options, ids)
  {
    var seen: set<string>, links := {}, [];
    for i := 0 to |ids|
      invariant forall id :: id in seen <==> id in ids[..i]
      invariant Pick(options, ids[..i]) == Some(links)
    {
      assert ids[..i + 1][..i] == ids[..i];
      assert ids[..i + 1] == ids[..i] + [ids[i]];
      var l := Find(options, ids[i]);
      if l.None? || ids[i] in seen {
        PickFails(options, ids, i + 1);
        return None;
      }
      seen, links := seen + {ids[i]}, links + [l.value];
    }
    assert ids[..|ids|] == ids;
    return Some(links);
  }

  lemma {:induction false} PickFails(options: seq<Link>, ids: seq<string>, n: nat)
    requires n <= |ids| && Pick(options, ids[..n]).None?
    ensures Pick(options, ids).None?
  {
    if n < |ids| {
      assert ids[..|ids| - 1][..n] == ids[..n];
      PickFails(options, ids[..|ids| - 1], n);
    } else {
      assert ids[..n] == ids;
    }
  }

  lemma {:induction false} OptionsFail(m: Media, selected: seq<Selection>, n: nat)
    requires n <= |selected| && Options(m, selected[..n]).None?
    ensures Options(m, selected).None?
  {
    if n < |selected| {
      assert selected[..|selected| - 1][..n] == selected[..n];
      OptionsFail(m, selected[..|selected| - 1], n);
    } else {
      assert selected[..n] == selected;
    }
  }

  /** selectReplyMedia. */
  method SelectReplyMedia(media: Option<Media>, d: Decision) returns (r: seq<Link>, reply: string)
    ensures r == Selected(media, d) && reply == Wording(media, d)
  {
    if media.None? || !d.capability.RespondWithoutAction? || d.selected == [] || |d.selected| > 3 { return [], ""; }
    var m, options := media.value, [];
    for k := 0 to |d.selected|
      invariant Options(m, d.selected[..k]) == Some(options)
    {
      assert d.selected[..k + 1][..k] == d.selected[..k];
      var s := d.selected[k];
      if Trim(s.itemId) == "" { continue; }
      var gallery := m.gallery(s);
      if gallery.None? {
        OptionsFail(m, d.selected, k + 1);
        return [], "";
      }
      options := GatherGallery(m, s, gallery.value, options);
    }
    assert d.selected[..|d.selected|] == d.selected;
    if options == [] { return [], ""; }
    var choice := m.choose(options);
    if choice.None? || |choice.value.ids| > 4 { return [], ""; }
    var picked := PickChosen(options, choice.value.ids);
    if picked.None? { return [], ""; }
    return picked.value, choice.value.reply;
  }
}
