/** The older candidate-screening screen (`src/components/Users.jsx`): a
    list of candidates each carrying its own `selected` flag, batch and
    single calls with an optimistic "called" mark, and the add-candidate
    form with its editable list of questions. Request outcomes and the
    clock are inputs. */
module CandidateScreen {
  import opened Wrappers
  import opened Seqs
  import opened JsStrings

  /** A candidate's `id`: the server's `user_id` for fetched candidates, a
      `Date.now()` number for ones added locally. Strict equality (`===`)
      never equates the two kinds. */
  datatype CandidateId = ServerId(userId: string) | LocalId(timestamp: int)

  /** A record of `GET /api/users`, reduced to the fields that are read. */
  datatype FetchedUser = FetchedUser(userId: string, name: string, destinationNumber: string)

  datatype Candidate = Candidate(
    id: CandidateId,
    name: string,
    phone: string,
    selected: bool,
    transcript: string,
    callStatus: bool,
    questions: seq<string>)

  /** The transcript written into a candidate when a call is placed. */
  const TranscriptPlaceholder := "Transcript will appear here..."

  // ---------------------------------------------------------------------
  // List operations

  /** The `res.data.map(...)` of `fetchUsers`: one fresh candidate per
      record, in order, unselected, not called, with no transcript and no
      questions. */
  function ToCandidates(users: seq<FetchedUser>): (cs: seq<Candidate>)
    ensures |cs| == |users|
    ensures forall i :: 0 <= i < |users| ==>
              cs[i].id == ServerId(users[i].userId) && cs[i].name == users[i].name
              && cs[i].phone == users[i].destinationNumber
    ensures forall i :: 0 <= i < |cs| ==>
              !cs[i].selected && !cs[i].callStatus && cs[i].transcript == "" && cs[i].questions == []
  {
    if users == [] then []
    else
      var u := users[0];
      [Candidate(ServerId(u.userId), u.name, u.destinationNumber, false, "", false, [])]
        + ToCandidates(users[1..])
  }

  /** `handleCheckboxChange`: flips `selected` on every candidate whose id
      matches and leaves every other candidate as it was. */
  function ToggleSelected(cs: seq<Candidate>, id: CandidateId): (r: seq<Candidate>)
    ensures |r| == |cs|
    ensures forall i :: 0 <= i < |cs| && cs[i].id == id ==>
              r[i] == cs[i].(selected := !cs[i].selected)
    ensures forall i :: 0 <= i < |cs| && cs[i].id != id ==> r[i] == cs[i]
  {
    if cs == [] then []
    else
      var c := cs[0];
      [if c.id == id then c.(selected := !c.selected) else c] + ToggleSelected(cs[1..], id)
  }

  /** Ticking the same checkbox twice restores the list. */
  lemma ToggleSelectedTwice(cs: seq<Candidate>, id: CandidateId)
    ensures ToggleSelected(ToggleSelected(cs, id), id) == cs
  {
  }

  /** Some candidate is ticked. */
  predicate AnySelected(cs: seq<Candidate>)
  {
    exists i :: 0 <= i < |cs| && cs[i].selected
  }

  /** `candidates.filter((c) => c.selected)`. */
  function SelectedCandidates(cs: seq<Candidate>): (r: seq<Candidate>)
    ensures forall c :: c in r <==> c in cs && c.selected
    ensures forall c: Candidate :: c.selected ==> Count(r, c) == Count(cs, c)
    ensures IsSubsequence(r, cs)
    ensures r == [] <==> !AnySelected(cs)
  {
    if cs == [] then []
    else if cs[0].selected then (assert AnySelected(cs); [cs[0]] + SelectedCandidates(cs[1..]))
    else
      var rest := SelectedCandidates(cs[1..]);
      assert AnySelected(cs) ==> AnySelected(cs[1..]) by {
        if AnySelected(cs) {
          var i :| 0 <= i < |cs| && cs[i].selected;
          assert cs[1..][i - 1] == cs[i];
        }
      }
      rest
  }

  /** The ids of a list of candidates, in order. */
  function IdsOf(cs: seq<Candidate>): (ids: seq<CandidateId>)
    ensures |ids| == |cs|
    ensures forall i :: 0 <= i < |cs| ==> ids[i] == cs[i].id
  {
    if cs == [] then [] else [cs[0].id] + IdsOf(cs[1..])
  }

  /** The success update of `placeCallsNow`: every selected candidate is
      marked called with the placeholder transcript; the others are left as
      they were, and every `selected` flag is kept. */
  function MarkSelectedCalled(cs: seq<Candidate>): (r: seq<Candidate>)
    ensures |r| == |cs|
    ensures forall i :: 0 <= i < |cs| && cs[i].selected ==>
              r[i] == cs[i].(callStatus := true, transcript := TranscriptPlaceholder)
    ensures forall i :: 0 <= i < |cs| && !cs[i].selected ==> r[i] == cs[i]
  {
    if cs == [] then []
    else
      var c := cs[0];
      [if c.selected then c.(callStatus := true, transcript := TranscriptPlaceholder) else c]
        + MarkSelectedCalled(cs[1..])
  }

  /** The success update of `placeSingleCall`: only candidates with the
      called id are marked. */
  function MarkCalledById(cs: seq<Candidate>, id: CandidateId): (r: seq<Candidate>)
    ensures |r| == |cs|
    ensures forall i :: 0 <= i < |cs| && cs[i].id == id ==>
              r[i] == cs[i].(callStatus := true, transcript := TranscriptPlaceholder)
    ensures forall i :: 0 <= i < |cs| && cs[i].id != id ==> r[i] == cs[i]
  {
    if cs == [] then []
    else
      var c := cs[0];
      [if c.id == id then c.(callStatus := true, transcript := TranscriptPlaceholder) else c]
        + MarkCalledById(cs[1..], id)
  }

  /** Marking is idempotent: placing the same calls again changes nothing
      more in the list. */
  lemma MarkSelectedCalledIdempotent(cs: seq<Candidate>)
    ensures MarkSelectedCalled(MarkSelectedCalled(cs)) == MarkSelectedCalled(cs)
  {
  }

  /** Marking does not change who is selected, so the ids sent and the
      candidates marked are the same ones. */
  lemma {:induction false} MarkKeepsSelection(cs: seq<Candidate>)
    ensures SelectedCandidates(MarkSelectedCalled(cs)) ==
            MarkSelectedCalled(SelectedCandidates(cs))
  {
    if cs != [] {
      MarkKeepsSelection(cs[1..]);
      assert MarkSelectedCalled(cs)[1..] == MarkSelectedCalled(cs[1..]);
    }
  }

  // ---------------------------------------------------------------------
  // Validation

  /** The outcome of the checks at the top of `placeCallsNow`. */
  datatype CallCheck = Proceed | NoneSelected | NoInstructions

  /** No candidate selected is reported first; then instructions that are
      empty after `trim`, i.e. blank (TrimEmptyIffBlank). */
  function CheckPlaceCalls(cs: seq<Candidate>, instructions: string): (r: CallCheck)
    ensures r == NoneSelected <==> !AnySelected(cs)
    ensures r == NoInstructions <==> AnySelected(cs) && IsBlank(instructions)
    ensures r == Proceed <==> AnySelected(cs) && !IsBlank(instructions)
  {
    if |SelectedCandidates(cs)| == 0 then NoneSelected
    else if IsBlank(instructions) then NoInstructions
    else Proceed
  }

  /** The instruction check is the source's `!conversationInstructions.trim()`. */
  lemma CheckPlaceCallsUsesTrim(cs: seq<Candidate>, instructions: string)
    ensures CheckPlaceCalls(cs, instructions) == NoInstructions <==>
            SelectedCandidates(cs) != [] && Trim(instructions) == ""
  {
    TrimEmptyIffBlank(instructions);
  }

  /** `!newCandidateName || !newCandidatePhone` rejects the form: both must
      be non-empty (a string of spaces passes). */
  predicate AcceptsNewCandidate(name: string, phone: string)
  {
    Truthy(name) && Truthy(phone)
  }

  // ---------------------------------------------------------------------
  // The question list of the add-candidate form

  /** `questions.filter((_, i) => i !== index)`: exactly the entry at
      `index` is removed; an index past the end removes nothing. */
  function RemoveAt(qs: seq<string>, index: nat): (r: seq<string>)
    ensures index < |qs| ==> r == qs[..index] + qs[index + 1..]
    ensures index >= |qs| ==> r == qs
  {
    if qs == [] then []
    else if index == 0 then qs[1..]
    else
      var rest := RemoveAt(qs[1..], index - 1);
      assert index < |qs| ==> [qs[0]] + rest == qs[..index] + qs[index + 1..] by {
        if index < |qs| {
          assert qs[1..][..index - 1] == qs[1..index];
          assert qs[1..][index..] == qs[index + 1..];
          assert qs[..index] == [qs[0]] + qs[1..index];
        }
      }
      assert index >= |qs| ==> [qs[0]] + rest == qs;
      [qs[0]] + rest
  }

  /** `questions.filter((q) => q.trim() !== "")`: the non-blank questions,
      in order, each as often as it was entered. */
  function NonBlankQuestions(qs: seq<string>): (r: seq<string>)
    ensures forall q :: q in r ==> !IsBlank(q)
    ensures forall q :: !IsBlank(q) ==> Count(r, q) == Count(qs, q)
    ensures IsSubsequence(r, qs)
  {
    if qs == [] then []
    else
      var rest := NonBlankQuestions(qs[1..]);
      TrimEmptyIffBlank(qs[0]);
      if Trim(qs[0]) != "" then [qs[0]] + rest else rest
  }

  // ---------------------------------------------------------------------
  // The component state

  /** A snapshot of every state field of the screen. */
  datatype ScreenState = ScreenState(
    showImmediateModal: bool,
    showScheduleModal: bool,
    conversationInstructions: string,
    loading: bool,
    transcriptModal: Option<Candidate>,
    candidates: seq<Candidate>,
    showAddCandidateModal: bool,
    newCandidateName: string,
    newCandidatePhone: string,
    newCandidateQuestions: seq<string>)

  class Screen {
    var showImmediateModal: bool
    var showScheduleModal: bool
    var conversationInstructions: string
    var loading: bool
    var transcriptModal: Option<Candidate>
    var candidates: seq<Candidate>
    var showAddCandidateModal: bool
    var newCandidateName: string
    var newCandidatePhone: string
    var newCandidateQuestions: seq<string>

    function State(): ScreenState
      reads this
    {
      ScreenState(showImmediateModal, showScheduleModal, conversationInstructions, loading,
                  transcriptModal, candidates, showAddCandidateModal, newCandidateName,
                  newCandidatePhone, newCandidateQuestions)
    }

    /** The initial state: no candidates, one empty question field. */
    constructor ()
      ensures State() == ScreenState(false, false, "", false, None, [], false, "", "", [""])
    {
      showImmediateModal, showScheduleModal := false, false;
      conversationInstructions := "";
      loading := false;
      transcriptModal := None;
      candidates := [];
      showAddCandidateModal := false;
      newCandidateName, newCandidatePhone := "", "";
      newCandidateQuestions := [""];
    }

    /** `fetchUsers` on mount: on success the list is replaced by the
        mapped records; on failure it is kept. */
    method FetchUsers(response: Option<seq<FetchedUser>>)
      modifies this
      ensures response.Some? ==> State() == old(State()).(candidates := ToCandidates(response.value))
      ensures response.None? ==> State() == old(State())
    {
      if response.Some? {
        candidates := ToCandidates(response.value);
      }
    }

    /** A row checkbox. */
    method HandleCheckboxChange(id: CandidateId)
      modifies this
      ensures State() == old(State()).(candidates := ToggleSelected(old(candidates), id))
    {
      candidates := ToggleSelected(candidates, id);
    }

    /** `placeCallsNow`: when a check fails nothing is sent and nothing
        changes. Otherwise one start-call per selected candidate is sent,
        carrying only its id; when all succeed the selected candidates are
        marked called, the dialog closes and the instructions are cleared;
        when one fails the list is kept. Loading ends false. */
    method PlaceCallsNow(postsOk: bool) returns (check: CallCheck, requests: seq<CandidateId>)
      modifies this
      ensures check == CheckPlaceCalls(old(candidates), old(conversationInstructions))
      ensures check != Proceed ==> requests == [] && State() == old(State())
      ensures check == Proceed ==> requests == IdsOf(SelectedCandidates(old(candidates)))
      ensures check == Proceed && postsOk ==>
                State() == old(State()).(candidates := MarkSelectedCalled(old(candidates)),
                                         showImmediateModal := false,
                                         conversationInstructions := "",
                                         loading := false)
      ensures check == Proceed && !postsOk ==> State() == old(State()).(loading := false)
    {
      check := CheckPlaceCalls(candidates, conversationInstructions);
      requests := [];
      if check == Proceed {
        loading := true;
        requests := IdsOf(SelectedCandidates(candidates));
        if postsOk {
          ghost var before := old(State());
          var marked := MarkSelectedCalled(candidates);
          candidates := marked;
          showImmediateModal := false;
          conversationInstructions := "";
          loading := false;
          assert State() == before.(candidates := marked, showImmediateModal := false,
                                    conversationInstructions := "", loading := false);
        }
        loading := false;
      }
    }

    /** `placeSingleCall`: one start-call for the candidate's id; on
        success only candidates with that id are marked. */
    method PlaceSingleCall(candidate: Candidate, postOk: bool) returns (request: CandidateId)
      modifies this
      ensures request == candidate.id
      ensures postOk ==> State() == old(State()).(candidates := MarkCalledById(old(candidates), candidate.id),
                                                  loading := false)
      ensures !postOk ==> State() == old(State()).(loading := false)
    {
      loading := true;
      request := candidate.id;
      if postOk {
        candidates := MarkCalledById(candidates, candidate.id);
      }
      loading := false;
    }

    /** `handleAddQuestionChange`: copies the question list into a fresh
        array, writes `value` at `index` and stores the copy, so only that
        entry changes. The index comes from rendering the list. */
    method HandleAddQuestionChange(index: nat, value: string)
      requires index < |newCandidateQuestions|
      modifies this
      ensures |newCandidateQuestions| == |old(newCandidateQuestions)|
      ensures newCandidateQuestions[index] == value
      ensures forall j :: 0 <= j < |newCandidateQuestions| && j != index ==>
                newCandidateQuestions[j] == old(newCandidateQuestions)[j]
      ensures State() == old(State()).(newCandidateQuestions := newCandidateQuestions)
    {
      var qs := newCandidateQuestions;
      var updated := new string[|qs|];
      for k := 0 to |qs|
        invariant updated[..k] == qs[..k]
        modifies updated
      {
        updated[k] := qs[k];
      }
      assert updated[..] == qs;
      updated[index] := value;
      newCandidateQuestions := updated[..];
    }

    /** `addQuestionField`: one more, empty, question at the end. */
    method AddQuestionField()
      modifies this
      ensures State() == old(State()).(newCandidateQuestions := old(newCandidateQuestions) + [""])
    {
      newCandidateQuestions := newCandidateQuestions + [""];
    }

    /** `removeQuestionField`. */
    method RemoveQuestionField(index: nat)
      modifies this
      ensures State() == old(State()).(newCandidateQuestions := RemoveAt(old(newCandidateQuestions), index))
    {
      newCandidateQuestions := RemoveAt(newCandidateQuestions, index);
    }

    /** `handleAddCandidate`, with `now` standing for `Date.now()`: an empty
        name or phone is rejected with nothing changed; otherwise one
        unselected, uncalled candidate with the non-blank questions is
        appended, the form is closed and cleared, and the question list is
        reset to one empty field. */
    method HandleAddCandidate(now: int) returns (accepted: bool)
      modifies this
      ensures accepted <==> AcceptsNewCandidate(old(newCandidateName), old(newCandidatePhone))
      ensures !accepted ==> State() == old(State())
      ensures accepted ==>
                State() == old(State()).(
                  candidates := old(candidates) + [Candidate(LocalId(now), old(newCandidateName),
                                                             old(newCandidatePhone), false, "", false,
                                                             NonBlankQuestions(old(newCandidateQuestions)))],
                  showAddCandidateModal := false,
                  newCandidateName := "",
                  newCandidatePhone := "",
                  newCandidateQuestions := [""])
    {
      accepted := AcceptsNewCandidate(newCandidateName, newCandidatePhone);
      if !accepted {
        return;
      }
      var c := Candidate(LocalId(now), newCandidateName, newCandidatePhone, false, "", false,
                         NonBlankQuestions(newCandidateQuestions));
      candidates := candidates + [c];
      showAddCandidateModal := false;
      newCandidateName := "";
      newCandidatePhone := "";
      newCandidateQuestions := [""];
    }
  }
}
