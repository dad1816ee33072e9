/** The creation form of `src/components/CreateContent.tsx`: the token gate,
    the required-field gate, comma-separated tag parsing and the field reset
    after a successful post. */
module CreateContent {

  import opened Wrappers
  import opened Seqs
  import opened Text
  import opened Browser

  /** The trimmed comma-separated segments of the tags field. */
  function Segments(raw: string): seq<string> {
    Map(Trim, Split(raw, ','))
  }

  /** `tags.split(',').map(tag => tag.trim()).filter(tag => tag)`: every tag
      is non-empty, already trimmed and free of commas, and there are at most
      one more tags than commas. */
  function ParseTags(raw: string): (tags: seq<string>)
    ensures |tags| <= CountChar(raw, ',') + 1
    ensures forall i :: 0 <= i < |tags| ==> tags[i] != "" && Trim(tags[i]) == tags[i] && ',' !in tags[i]
  {
    var segments := Segments(raw);
    var r := Filter(NonEmpty, segments);
    forall i | 0 <= i < |r| ensures Trim(r[i]) == r[i] && ',' !in r[i] {
      var k :| 0 <= k < |segments| && segments[k] == r[i];
      TrimIdempotent(Split(raw, ',')[k]);
      TrimKeepsCharacters(Split(raw, ',')[k], ',');
    }
    r
  }

  /** The tags keep the left-to-right order of their segments, and a string is
      a tag exactly as often as it is a non-empty trimmed segment. */
  lemma ParseTagsFollowsSegments(raw: string, t: string)
    ensures IsSubseq(ParseTags(raw), Segments(raw))
    ensures multiset(ParseTags(raw))[t] == if t != "" then multiset(Segments(raw))[t] else 0
  {
    FilterIsSubseq(NonEmpty, Segments(raw));
    FilterCount(NonEmpty, Segments(raw), t);
  }

  /** Joining the untrimmed segments with commas gives the field back, so no
      character of the field is lost before trimming. */
  lemma SegmentsCoverField(raw: string)
    ensures Join(Split(raw, ','), ',') == raw
    ensures |Segments(raw)| == CountChar(raw, ',') + 1
  {
    JoinSplit(raw, ',');
  }

  /** An empty field gives no tags. */
  lemma EmptyFieldGivesNoTags()
    ensures ParseTags("") == []
  {
    assert Split("", ',') == [""];
    assert Trim("") == "";
    assert Segments("") == [""];
  }

  /** The body posted to `/content`. */
  datatype Payload = Payload(title: string, link: string, contentType: string, tags: seq<string>)

  /** What a press of the submit button does: nothing is offered without a
      token; a missing field stops before any post; otherwise one post is
      made, with the raw token as `Authorization`, and it succeeds or not. */
  datatype SubmitResult = NotOffered | MissingFields | Posted(payload: Payload, authorization: string, succeeded: bool)

  datatype Field = TitleField | LinkField | TypeField | TagsField

  class CreateContentForm {
    /** The token read when the form is rendered. */
    const token: Option<string>
    var title: string
    var link: string
    var contentType: string
    var tags: string
    var loading: bool

    constructor (storedToken: Option<string>)
      ensures token == storedToken
      ensures title == "" && link == "" && contentType == "" && tags == "" && !loading
    {
      token := storedToken;
      title, link, contentType, tags := "", "", "", "";
      loading := false;
    }

    /** `handleChange`: one field takes the input's value. */
    method HandleChange(field: Field, value: string)
      modifies this
      ensures title == (if field == TitleField then value else old(title))
      ensures link == (if field == LinkField then value else old(link))
      ensures contentType == (if field == TypeField then value else old(contentType))
      ensures tags == (if field == TagsField then value else old(tags))
      ensures loading == old(loading)
    {
      match field
      case TitleField => title := value;
      case LinkField => link := value;
      case TypeField => contentType := value;
      case TagsField => tags := value;
    }

    /** `handleSubmit()`, with `postSucceeds` standing for how the post
        settles. The `finally` clause also runs on the early return, so the
        flag ends false whenever the form is offered. */
    method HandleSubmit(postSucceeds: bool) returns (r: SubmitResult)
      modifies this
      ensures r == NotOffered <==> !TokenPresent(token)
      ensures r == MissingFields <==> TokenPresent(token) && (old(title) == "" || old(link) == "" || old(contentType) == "")
      ensures r.Posted? ==> r == Posted(Payload(old(title), old(link), old(contentType), ParseTags(old(tags))), token.value, postSucceeds)
      ensures r == NotOffered ==> loading == old(loading)
      ensures r != NotOffered ==> !loading
      ensures r.Posted? && postSucceeds ==> title == "" && link == "" && contentType == "" && tags == ""
      ensures !(r.Posted? && postSucceeds) ==>
        title == old(title) && link == old(link) && contentType == old(contentType) && tags == old(tags)
    {
      if !TokenPresent(token) {
        return NotOffered;
      }
      if title == "" || link == "" || contentType == "" {
        loading := false;
        return MissingFields;
      }
      loading := true;
      var payload := Payload(title, link, contentType, ParseTags(tags));
      r := Posted(payload, token.value, postSucceeds);
      if postSucceeds {
        title, link, contentType, tags := "", "", "", "";
      }
      loading := false;
    }
  }
}
