/** The anonymous question box: a list of questions, newest first, each with
    its replies, newest first. Two seeded questions and their seeded replies
    are marked default. Ids and timestamps come in as parameters. */
module Questions {
  import opened Wrappers
  import Text
  import Seqs

  datatype PdfRef = PdfRef(name: string, uri: string)

  /** A reply; an absent `isDefault` is false. */
  datatype QAReply = QAReply(id: string, text: string, imageUri: Option<string>, pdf: Option<PdfRef>,
                             createdAt: string, isDefault: bool)

  datatype QAItem = QAItem(id: string, question: string, replies: seq<QAReply>, isDefault: bool)

  /** The fields a caller gives `addReply`; id and creation time are added. */
  datatype ReplyDraft = ReplyDraft(text: string, imageUri: Option<string>, pdf: Option<PdfRef>, isDefault: bool)

  const SeedQuestion1: string := "1. Quels sont les principaux risques liés à mon poste de travail ?"
  const SeedAnswer1: string := "Réponse (Texte) :\nLes risques varient selon votre poste :\n\n• Risques mécaniques (machines en mouvement, outils coupants).\n• Risques chimiques (exposition aux substances dangereuses).\n• Risques physiques (bruit, chaleur, chutes de hauteur)."
  const SeedQuestion2: string := "2. Où puis-je trouver les consignes de sécurité de l’entreprise ?"
  const SeedAnswer2: string := "Réponse (Texte) :\nToutes les consignes de sécurité sont regroupées dans le manuel HSE et affichées aux points stratégiques (salles de repos, ateliers, zones à risque)."

  /** The provider's initial list; `now` is the seeding time stamp. */
  function Seed(now: string): (qs: seq<QAItem>)
    ensures |qs| == 2 && qs[0].id == "seed-1" && qs[1].id == "seed-2"
    ensures forall i :: 0 <= i < |qs| ==> qs[i].isDefault && |qs[i].replies| == 1 && qs[i].replies[0].isDefault
  {
    [ QAItem("seed-1", SeedQuestion1, [QAReply("ans-1", SeedAnswer1, None, None, now, true)], true),
      QAItem("seed-2", SeedQuestion2, [QAReply("ans-2", SeedAnswer2, None, None, now, true)], true) ]
  }

  /** `addQuestion(q)`: one new, non-default question with the trimmed text
      and no replies goes in front; the old list follows unchanged. */
  function AddQuestion(qs: seq<QAItem>, q: string, newId: string): (r: seq<QAItem>)
    ensures |r| == |qs| + 1 && r[1..] == qs
    ensures r[0].id == newId && r[0].question == Text.Trim(q) && r[0].replies == [] && !r[0].isDefault
  {
    [QAItem(newId, Text.Trim(q), [], false)] + qs
  }

  /** The reply `addReply` builds from a draft. */
  function NewReply(draft: ReplyDraft, newId: string, now: string): (r: QAReply)
    ensures r.id == newId && r.createdAt == now
    ensures ReplyDraft(r.text, r.imageUri, r.pdf, r.isDefault) == draft
  {
    QAReply(newId, draft.text, draft.imageUri, draft.pdf, now, draft.isDefault)
  }

  /** `addReply(id, draft)`: the new reply goes in front of the replies of
      every question with that id; every other question is left as it was. */
  function AddReply(qs: seq<QAItem>, id: string, draft: ReplyDraft, newId: string, now: string): (r: seq<QAItem>)
    ensures |r| == |qs|
    ensures forall i :: 0 <= i < |qs| && qs[i].id != id ==> r[i] == qs[i]
    ensures forall i :: 0 <= i < |qs| && qs[i].id == id ==>
              r[i].id == qs[i].id && r[i].question == qs[i].question && r[i].isDefault == qs[i].isDefault
              && r[i].replies == [NewReply(draft, newId, now)] + qs[i].replies
  {
    if |qs| == 0 then []
    else
      var head := if qs[0].id == id then qs[0].(replies := [NewReply(draft, newId, now)] + qs[0].replies) else qs[0];
      [head] + AddReply(qs[1..], id, draft, newId, now)
  }

  /** Replying to an id no question has changes nothing. */
  lemma AddReplyUnknownId(qs: seq<QAItem>, id: string, draft: ReplyDraft, newId: string, now: string)
    requires forall i :: 0 <= i < |qs| ==> qs[i].id != id
    ensures AddReply(qs, id, draft, newId, now) == qs
  {
  }

  /** The reply filter of `deleteReply`: it keeps a reply only when it is not
      a default reply and has another id. */
  function KeepReply(replyId: string): QAReply -> bool {
    (r: QAReply) => !r.isDefault && r.id != replyId
  }

  /** `deleteReply(questionId, replyId)` on every question with that id. */
  function DeleteReply(qs: seq<QAItem>, questionId: string, replyId: string): (r: seq<QAItem>)
    ensures |r| == |qs|
    ensures forall i :: 0 <= i < |qs| && qs[i].id != questionId ==> r[i] == qs[i]
    ensures forall i :: 0 <= i < |qs| && qs[i].id == questionId ==>
              r[i].id == qs[i].id && r[i].question == qs[i].question && r[i].isDefault == qs[i].isDefault
              && r[i].replies == Seqs.Filter(KeepReply(replyId), qs[i].replies)
  {
    if |qs| == 0 then []
    else
      var head := if qs[0].id == questionId then qs[0].(replies := Seqs.Filter(KeepReply(replyId), qs[0].replies)) else qs[0];
      [head] + DeleteReply(qs[1..], questionId, replyId)
  }

  /** In the targeted question no reply has `replyId` and no default reply is
      left, the seeded ones included; every other reply stays, in order. */
  lemma DeleteReplyDropsDefaults(qs: seq<QAItem>, questionId: string, replyId: string, i: nat)
    requires i < |qs| && qs[i].id == questionId
    ensures var kept := DeleteReply(qs, questionId, replyId)[i].replies;
            (forall x :: x in kept ==> x.id != replyId && !x.isDefault)
            && (forall x :: x in qs[i].replies && !x.isDefault && x.id != replyId ==> x in kept)
            && Seqs.IsSubsequence(kept, qs[i].replies)
  {
    Seqs.FilterIsSubsequence(KeepReply(replyId), qs[i].replies);
  }

  /** The question filter of `deleteQuestion`. */
  function KeepQuestion(id: string): QAItem -> bool {
    (q: QAItem) => q.isDefault || q.id != id
  }

  /** `deleteQuestion(id)`: default questions always stay; other questions
      stay unless they carry `id`. */
  function DeleteQuestion(qs: seq<QAItem>, id: string): (r: seq<QAItem>)
    ensures |r| <= |qs|
    ensures forall q :: q in qs && q.isDefault ==> q in r
    ensures forall q :: q in r <==> q in qs && (q.isDefault || q.id != id)
    ensures |r| == |set i | 0 <= i < |qs| && (qs[i].isDefault || qs[i].id != id)|
    ensures Seqs.IsSubsequence(r, qs)
  {
    Seqs.FilterIsSubsequence(KeepQuestion(id), qs);
    Seqs.FilterLength(KeepQuestion(id), qs);
    assert Seqs.Positions(KeepQuestion(id), qs) == set i | 0 <= i < |qs| && (qs[i].isDefault || qs[i].id != id);
    Seqs.Filter(KeepQuestion(id), qs)
  }

  /** The survivors of `deleteQuestion` keep their order. */
  lemma DeleteQuestionKeepsOrder(qs: seq<QAItem>, id: string)
    ensures Seqs.IsSubsequence(DeleteQuestion(qs, id), qs)
  {
    Seqs.FilterIsSubsequence(KeepQuestion(id), qs);
  }

  /** Deleting an id that only default questions carry changes nothing. */
  lemma DeleteDefaultQuestionIsNoOp(qs: seq<QAItem>, id: string)
    requires forall i :: 0 <= i < |qs| && qs[i].id == id ==> qs[i].isDefault
    ensures DeleteQuestion(qs, id) == qs
  {
    Seqs.FilterAll(KeepQuestion(id), qs);
  }

  /** The seeded questions survive any deletion. */
  lemma SeedSurvivesDeletion(now: string, id: string)
    ensures DeleteQuestion(Seed(now), id) == Seed(now)
  {
    DeleteDefaultQuestionIsNoOp(Seed(now), id);
  }
}
