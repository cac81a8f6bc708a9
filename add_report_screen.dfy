/**
 * The report form of `AddReportScreen`: a category picked from a fixed list
 * through a dropdown, and a list of tags edited by adding the trimmed input
 * and removing by position.
 */
module AddReportScreen {
  import JsString

  const Categories: seq<string> := ["Not accessible", "Partially accessible", "Accessible"]

  /**
   * `tags.filter((_, i) => i !== index)`, over the tags from position `from`
   * on: each tag is kept unless its position is `index`.
   */
  function FilterOutIndex(tags: seq<string>, index: int, from: int): seq<string>
    decreases |tags|
  {
    if tags == [] then []
    else (if from == index then [] else [tags[0]]) + FilterOutIndex(tags[1..], index, from + 1)
  }

  /** With `index` outside the positions covered, the filter keeps every tag. */
  lemma {:induction false} FilterKeepsAll(tags: seq<string>, index: int, from: int)
    requires !(from <= index < from + |tags|)
    ensures FilterOutIndex(tags, index, from) == tags
  {
    if tags != [] {
      FilterKeepsAll(tags[1..], index, from + 1);
      assert [tags[0]] + tags[1..] == tags;
    }
  }

  /** With `index` among the positions covered, the filter drops exactly that tag. */
  lemma {:induction false} FilterDropsIndex(tags: seq<string>, index: int, from: int)
    requires from <= index < from + |tags|
    ensures FilterOutIndex(tags, index, from) == tags[..index - from] + tags[index - from + 1..]
  {
    if from == index {
      FilterKeepsAll(tags[1..], index, from + 1);
      assert tags[1..] == tags[index - from + 1..];
    } else {
      FilterDropsIndex(tags[1..], index, from + 1);
      assert tags[..index - from] == [tags[0]] + tags[1..][..index - from - 1];
      assert tags[index - from + 1..] == tags[1..][index - from..];
    }
  }

  /** The filter removes exactly the tag at `index` when there is one, and nothing otherwise. */
  lemma FilterRemovesAt(tags: seq<string>, index: int, from: int)
    ensures from <= index < from + |tags| ==>
      FilterOutIndex(tags, index, from) == tags[..index - from] + tags[index - from + 1..]
    ensures !(from <= index < from + |tags|) ==> FilterOutIndex(tags, index, from) == tags
  {
    if from <= index < from + |tags| {
      FilterDropsIndex(tags, index, from);
    } else {
      FilterKeepsAll(tags, index, from);
    }
  }

  /** The form state of the screen. */
  class ReportForm {
    var category: string
    var showDropdown: bool
    var tags: seq<string>
    var tagInput: string
    var description: string

    /** The initial state: 'Not accessible', dropdown closed, the tag 'Steps', empty input and description. */
    constructor ()
      ensures category == "Not accessible" && category == Categories[0] && !showDropdown
      ensures tags == ["Steps"] && tagInput == "" && description == ""
    {
      category := "Not accessible";
      showDropdown := false;
      tags := ["Steps"];
      tagInput := "";
      description := "";
    }

    /** The category button opens or closes the dropdown. */
    method ToggleDropdown()
      modifies this
      ensures showDropdown == !old(showDropdown)
      ensures category == old(category) && tags == old(tags) && tagInput == old(tagInput) && description == old(description)
    {
      showDropdown := !showDropdown;
    }

    /** Picking an entry of the list sets the category and closes the dropdown. */
    method SelectCategory(i: nat)
      requires i < |Categories|
      modifies this
      ensures category == Categories[i] && !showDropdown
      ensures tags == old(tags) && tagInput == old(tagInput) && description == old(description)
    {
      category := Categories[i];
      showDropdown := false;
    }

    /** Typing replaces the tag input. */
    method SetTagInput(text: string)
      modifies this
      ensures tagInput == text
      ensures category == old(category) && showDropdown == old(showDropdown) && tags == old(tags) && description == old(description)
    {
      tagInput := text;
    }

    /**
     * `addTag`: input that is not blank is appended, trimmed, at the end and
     * the input is cleared; blank input changes nothing.
     */
    method AddTag()
      modifies this
      ensures category == old(category) && showDropdown == old(showDropdown) && description == old(description)
      ensures JsString.Trim(old(tagInput)) != [] ==>
        tags == old(tags) + [JsString.Trim(old(tagInput))] && tagInput == ""
      ensures JsString.Trim(old(tagInput)) == [] ==> tags == old(tags) && tagInput == old(tagInput)
    {
      var trimmed := JsString.Trim(tagInput);
      if trimmed != [] {
        tags := tags + [trimmed];
        tagInput := "";
      }
    }

    /** `removeTag(index)`: the tag at that position goes, the rest keep their order; any other index changes nothing. */
    method RemoveTag(index: int)
      modifies this
      ensures tags == FilterOutIndex(old(tags), index, 0)
      ensures 0 <= index < |old(tags)| ==> tags == old(tags)[..index] + old(tags)[index + 1..]
      ensures !(0 <= index < |old(tags)|) ==> tags == old(tags)
      ensures category == old(category) && showDropdown == old(showDropdown)
      ensures tagInput == old(tagInput) && description == old(description)
    {
      FilterRemovesAt(tags, index, 0);
      tags := FilterOutIndex(tags, index, 0);
    }
  }
}
