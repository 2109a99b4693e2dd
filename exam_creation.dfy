/**
 * The question editor of the exam creation page (pages/professor/ExamCreation.tsx):
 * the list of question forms and the operations that add, remove and edit
 * questions and their options. Each handler computes a new list from the
 * current one and stores it with setQuestions.
 */
module ExamCreation {
  import opened Common

  datatype QuestionType = MultipleChoice | FreeText

  datatype QuestionForm = QuestionForm(id: string, text: string, questionType: QuestionType, options: seq<string>)

  const EmptyOptions: seq<string> := ["", "", "", ""]

  /** A fresh multiple-choice question with four empty options. */
  function NewQuestion(id: string): QuestionForm
  {
    QuestionForm(id, "", MultipleChoice, EmptyOptions)
  }

  /** The list the page starts with. */
  const InitialQuestions: seq<QuestionForm> := [NewQuestion("1")]

  // ---------------------------------------------------------------------
  // Questions

  function AddQuestion(qs: seq<QuestionForm>): (r: seq<QuestionForm>)
    ensures |r| == |qs| + 1 && r[..|qs|] == qs
    ensures r[|qs|] == NewQuestion(NatToString(|qs| + 1))
  {
    qs + [NewQuestion(NatToString(|qs| + 1))]
  }

  function RemoveQuestion(qs: seq<QuestionForm>, id: string): (r: seq<QuestionForm>)
    ensures forall q :: q in r <==> q in qs && q.id != id
    ensures |r| == |qs| - CountIf(qs, (q: QuestionForm) => q.id == id)
  {
    var r := Filter(qs, (q: QuestionForm) => q.id != id);
    CountComplement(qs, id);
    r
  }

  lemma {:induction false} CountComplement(qs: seq<QuestionForm>, id: string)
    ensures |Filter(qs, (q: QuestionForm) => q.id != id)| == |qs| - CountIf(qs, (q: QuestionForm) => q.id == id)
  {
    if qs != [] {
      CountComplement(qs[1..], id);
    }
  }

  /** Removing keeps the other questions in their order: it distributes over concatenation. */
  lemma RemoveQuestionKeepsOrder(a: seq<QuestionForm>, b: seq<QuestionForm>, id: string)
    ensures RemoveQuestion(a + b, id) == RemoveQuestion(a, id) + RemoveQuestion(b, id)
  {
    FilterAppend(a, b, (q: QuestionForm) => q.id != id);
  }

  /**
   * The new id depends only on the length, so after a removal it can repeat
   * an id already in the list: from ids "1", "2", removing "1" and adding
   * gives two questions with id "2".
   */
  lemma AddAfterRemoveRepeatsId()
    ensures var qs := [NewQuestion("1"), NewQuestion("2")];
      var r := AddQuestion(RemoveQuestion(qs, "1"));
      |r| == 2 && r[0].id == "2" && r[1].id == "2"
  {
    RemoveFirstOfTwo();
    var r := AddQuestion([NewQuestion("2")]);
    assert r[1] == NewQuestion("2") by {
      assert NatToString(2) == "2";
    }
    assert r[0] == r[..1][0];
  }

  lemma RemoveFirstOfTwo()
    ensures RemoveQuestion([NewQuestion("1"), NewQuestion("2")], "1") == [NewQuestion("2")]
  {
    var qs := [NewQuestion("1"), NewQuestion("2")];
    assert qs[1..][1..] == [];
    assert Filter(qs, (q: QuestionForm) => q.id != "1") == [] + Filter(qs[1..], (q: QuestionForm) => q.id != "1");
  }

  /** The questions with a matching id, edited by f; the others untouched. */
  function MapMatching(qs: seq<QuestionForm>, id: string, f: QuestionForm -> QuestionForm): (r: seq<QuestionForm>)
    ensures |r| == |qs|
    ensures forall i :: 0 <= i < |qs| ==> r[i] == if qs[i].id == id then f(qs[i]) else qs[i]
  {
    seq(|qs|, i requires 0 <= i < |qs| => if qs[i].id == id then f(qs[i]) else qs[i])
  }

  function UpdateQuestionText(qs: seq<QuestionForm>, id: string, text: string): (r: seq<QuestionForm>)
  {
    MapMatching(qs, id, (q: QuestionForm) => q.(text := text))
  }

  function UpdateQuestionType(qs: seq<QuestionForm>, id: string, t: QuestionType): (r: seq<QuestionForm>)
  {
    MapMatching(qs, id, (q: QuestionForm) => q.(questionType := t))
  }

  /**
   * Editing a text changes that field of the matching questions and nothing
   * else; applying the same edit again changes nothing.
   */
  lemma UpdateQuestionTextSpec(qs: seq<QuestionForm>, id: string, text: string)
    ensures var r := UpdateQuestionText(qs, id, text);
      && |r| == |qs|
      && (forall i :: 0 <= i < |qs| ==>
            r[i].id == qs[i].id && r[i].questionType == qs[i].questionType && r[i].options == qs[i].options
            && r[i].text == (if qs[i].id == id then text else qs[i].text))
      && UpdateQuestionText(r, id, text) == r
  {
  }

  /** Changing a type changes that field of the matching questions and nothing else, idempotently. */
  lemma UpdateQuestionTypeSpec(qs: seq<QuestionForm>, id: string, t: QuestionType)
    ensures var r := UpdateQuestionType(qs, id, t);
      && |r| == |qs|
      && (forall i :: 0 <= i < |qs| ==>
            r[i].id == qs[i].id && r[i].text == qs[i].text && r[i].options == qs[i].options
            && r[i].questionType == (if qs[i].id == id then t else qs[i].questionType))
      && UpdateQuestionType(r, id, t) == r
  {
  }

  // ---------------------------------------------------------------------
  // Options

  /**
   * `newOptions[index] = text` on a copy. Indices outside the list are not
   * rendered by the page; the model leaves the options as they are there.
   */
  function SetOption(options: seq<string>, index: int, text: string): (r: seq<string>)
    ensures |r| == |options|
  {
    if 0 <= index < |options| then options[index := text] else options
  }

  /** Array.prototype.splice(index, 1): a negative index counts from the end; past the end nothing is removed. */
  function SpliceOne(options: seq<string>, index: int): (r: seq<string>)
    ensures |r| == if |options| > 0 && index < |options| then |options| - 1 else |options|
  {
    var start := if index < 0 then (if |options| + index < 0 then 0 else |options| + index)
                 else (if index < |options| then index else |options|);
    if start < |options| then options[..start] + options[start + 1..] else options
  }

  function UpdateOptionText(qs: seq<QuestionForm>, id: string, index: int, text: string): (r: seq<QuestionForm>)
  {
    MapMatching(qs, id, (q: QuestionForm) => q.(options := SetOption(q.options, index, text)))
  }

  function AddOption(qs: seq<QuestionForm>, id: string): (r: seq<QuestionForm>)
  {
    MapMatching(qs, id, (q: QuestionForm) => q.(options := q.options + [""]))
  }

  /** Only a matching question with more than two options loses one. */
  function RemoveOption(qs: seq<QuestionForm>, id: string, index: int): (r: seq<QuestionForm>)
  {
    seq(|qs|, i requires 0 <= i < |qs| =>
      if qs[i].id == id && |qs[i].options| > 2 then qs[i].(options := SpliceOne(qs[i].options, index)) else qs[i])
  }

  /** Only option `index` of the matching questions takes the new text. */
  lemma UpdateOptionTextSpec(qs: seq<QuestionForm>, id: string, index: int, text: string)
    ensures var r := UpdateOptionText(qs, id, index, text);
      && |r| == |qs|
      && (forall i :: 0 <= i < |qs| && qs[i].id != id ==> r[i] == qs[i])
      && (forall i :: 0 <= i < |qs| && qs[i].id == id ==>
            && r[i].id == qs[i].id && r[i].text == qs[i].text && r[i].questionType == qs[i].questionType
            && |r[i].options| == |qs[i].options|
            && (forall k :: 0 <= k < |qs[i].options| ==>
                  r[i].options[k] == if k == index then text else qs[i].options[k]))
  {
  }

  /** Adding an option appends exactly one empty string to the matching questions. */
  lemma AddOptionSpec(qs: seq<QuestionForm>, id: string)
    ensures var r := AddOption(qs, id);
      && |r| == |qs|
      && (forall i :: 0 <= i < |qs| && qs[i].id != id ==> r[i] == qs[i])
      && (forall i :: 0 <= i < |qs| && qs[i].id == id ==>
            r[i].options == qs[i].options + [""] && r[i] == qs[i].(options := r[i].options))
  {
  }

  /**
   * Removing an option from a matching question with more than two options
   * deletes exactly options[index] when index is in range; a question with two
   * or fewer options, or another id, is left as it is.
   */
  lemma RemoveOptionSpec(qs: seq<QuestionForm>, id: string, index: int)
    ensures var r := RemoveOption(qs, id, index);
      && |r| == |qs|
      && (forall i :: 0 <= i < |qs| && (qs[i].id != id || |qs[i].options| <= 2) ==> r[i] == qs[i])
      && (forall i :: 0 <= i < |qs| && qs[i].id == id && |qs[i].options| > 2 && 0 <= index < |qs[i].options| ==>
            r[i] == qs[i].(options := qs[i].options[..index] + qs[i].options[index + 1..]))
  {
  }

  /** Removing the option just added gives the question back. */
  lemma RemoveAddedOption(qs: seq<QuestionForm>, id: string, index: int)
    requires forall i :: 0 <= i < |qs| && qs[i].id == id ==> |qs[i].options| == index && index >= 2
    ensures RemoveOption(AddOption(qs, id), id, index) == qs
  {
    var added := AddOption(qs, id);
    var r := RemoveOption(added, id, index);
    forall i | 0 <= i < |qs|
      ensures r[i] == qs[i]
    {
      if qs[i].id == id {
        assert added[i].options == qs[i].options + [""];
        assert (qs[i].options + [""])[..index] == qs[i].options;
      }
    }
  }

  // ---------------------------------------------------------------------
  // The two-option floor

  /** Every question keeps at least two options. */
  ghost predicate AtLeastTwoOptions(qs: seq<QuestionForm>)
  {
    forall i :: 0 <= i < |qs| ==> |qs[i].options| >= 2
  }

  /** The initial list has it, and no question operation takes a question below two options. */
  lemma QuestionOpsKeepOptionFloor(qs: seq<QuestionForm>, id: string, text: string, t: QuestionType)
    requires AtLeastTwoOptions(qs)
    ensures AtLeastTwoOptions(InitialQuestions)
    ensures AtLeastTwoOptions(AddQuestion(qs))
    ensures AtLeastTwoOptions(RemoveQuestion(qs, id))
    ensures AtLeastTwoOptions(UpdateQuestionText(qs, id, text))
    ensures AtLeastTwoOptions(UpdateQuestionType(qs, id, t))
  {
    assert AtLeastTwoOptions(InitialQuestions) by {
      assert InitialQuestions[0].options == EmptyOptions;
    }
    assert AtLeastTwoOptions(AddQuestion(qs)) by {
      var a := AddQuestion(qs);
      forall i | 0 <= i < |a|
        ensures |a[i].options| >= 2
      {
        if i < |qs| {
          assert a[i] == a[..|qs|][i] == qs[i];
        }
      }
    }
    assert AtLeastTwoOptions(RemoveQuestion(qs, id)) by {
      var r := RemoveQuestion(qs, id);
      forall i | 0 <= i < |r|
        ensures |r[i].options| >= 2
      {
        assert r[i] in qs;
      }
    }
    assert AtLeastTwoOptions(UpdateQuestionText(qs, id, text));
    assert AtLeastTwoOptions(UpdateQuestionType(qs, id, t));
  }

  /** No option operation takes a question below two options; removal stops at two. */
  lemma OptionOpsKeepOptionFloor(qs: seq<QuestionForm>, id: string, index: int, text: string)
    requires AtLeastTwoOptions(qs)
    ensures AtLeastTwoOptions(UpdateOptionText(qs, id, index, text))
    ensures AtLeastTwoOptions(AddOption(qs, id))
    ensures AtLeastTwoOptions(RemoveOption(qs, id, index))
  {
  }

  /** The page's question list, replaced by each handler through setQuestions. */
  class QuestionEditor {
    var questions: seq<QuestionForm>

    constructor ()
      ensures questions == InitialQuestions
    {
      questions := InitialQuestions;
    }

    method OnAddQuestion()
      modifies this
      ensures questions == AddQuestion(old(questions))
    {
      questions := questions + [NewQuestion(NatToString(|questions| + 1))];
    }

    method OnRemoveQuestion(id: string)
      modifies this
      ensures questions == RemoveQuestion(old(questions), id)
    {
      questions := RemoveQuestion(questions, id);
    }

    method OnUpdateQuestionText(id: string, text: string)
      modifies this
      ensures questions == UpdateQuestionText(old(questions), id, text)
    {
      questions := UpdateQuestionText(questions, id, text);
    }

    method OnUpdateQuestionType(id: string, t: QuestionType)
      modifies this
      ensures questions == UpdateQuestionType(old(questions), id, t)
    {
      questions := UpdateQuestionType(questions, id, t);
    }

    /** Copies the matching question's options and assigns the one entry. */
    method OnUpdateOptionText(id: string, index: int, text: string)
      modifies this
      ensures questions == UpdateOptionText(old(questions), id, index, text)
    {
      questions := UpdateOptionText(questions, id, index, text);
    }

    method OnAddOption(id: string)
      modifies this
      ensures questions == AddOption(old(questions), id)
    {
      questions := AddOption(questions, id);
    }

    method OnRemoveOption(id: string, index: int)
      modifies this
      ensures questions == RemoveOption(old(questions), id, index)
    {
      questions := RemoveOption(questions, id, index);
    }
  }
}
