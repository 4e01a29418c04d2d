/**
 * The records the back end stores (an HSK level, a lesson, a vocabulary
 * entry, a dialogue line), the data objects the create and update endpoints
 * receive, and how a partial update is applied to a stored record.
 *
 * An optional column is an `Option`. In an update object every field is
 * optional (the update objects are partial forms of the create objects):
 * `None` means "not supplied, keep the stored value".
 */
module Entities {
  import opened Wrappers

  /*** Records ***/

  datatype HskLevel = HskLevel(id: int, level: int, name: string, description: Option<string>)

  datatype LessonType = VocabularyLesson | GrammarLesson | ConversationLesson

  datatype ContentStatus = Draft | Published | Archived

  datatype Lesson = Lesson(id: int, levelId: int, title: string, description: Option<string>,
                           kind: LessonType, status: ContentStatus, isFree: bool,
                           orderIndex: int, mediaUrl: Option<string>)

  datatype Vocabulary = Vocabulary(id: int, lessonId: int, hanzi: string, pinyin: string,
                                   meaningVn: string, audioUrl: Option<string>,
                                   strokeOrderSvg: Option<string>, exampleHanzi: Option<string>,
                                   exampleMeaning: Option<string>)

  datatype DialogueLine = DialogueLine(id: int, lessonId: int, roleName: string,
                                       avatarUrl: Option<string>, contentHanzi: string,
                                       contentPinyin: string, meaningVn: string,
                                       audioUrl: Option<string>, orderIndex: int)

  /*** HSK levels ***/

  datatype CreateLevel = CreateLevel(level: int, name: string, description: Option<string>)

  datatype UpdateLevel = UpdateLevel(level: Option<int>, name: Option<string>, description: Option<string>)

  /** The record a create request stores under `id`. */
  function NewLevel(id: int, d: CreateLevel): (l: HskLevel)
  {
    HskLevel(id, d.level, d.name, d.description)
  }

  /** The data columns of a stored level, as a create request would carry them. */
  function LevelData(l: HskLevel): CreateLevel
  {
    CreateLevel(l.level, l.name, l.description)
  }

  /** A stored level gives back exactly the data it was created from, under the id it was given. */
  lemma NewLevelStoresData(id: int, d: CreateLevel)
    ensures NewLevel(id, d).id == id
    ensures LevelData(NewLevel(id, d)) == d
  {
  }

  /** Supplied fields overwrite, the others and the id stay as stored. */
  function ApplyLevelUpdate(l: HskLevel, u: UpdateLevel): (r: HskLevel)
    ensures r.id == l.id
    ensures u.level.Some? ==> r.level == u.level.value
    ensures u.level.None? ==> r.level == l.level
    ensures u.name.Some? ==> r.name == u.name.value
    ensures u.name.None? ==> r.name == l.name
    ensures u.description.Some? ==> r.description == u.description
    ensures u.description.None? ==> r.description == l.description
  {
    HskLevel(l.id, u.level.GetOr(l.level), u.name.GetOr(l.name),
             Overwrite(u.description, l.description))
  }

  const NoLevelChange := UpdateLevel(None, None, None)

  /** An update that supplies nothing leaves the record as it is. */
  lemma EmptyLevelUpdate(l: HskLevel)
    ensures ApplyLevelUpdate(l, NoLevelChange) == l
  {
  }

  /** Applying the same update twice is applying it once. */
  lemma LevelUpdateIdempotent(l: HskLevel, u: UpdateLevel)
    ensures ApplyLevelUpdate(ApplyLevelUpdate(l, u), u) == ApplyLevelUpdate(l, u)
  {
  }

  /** Two updates in a row act as one update in which the later supplied fields win. */
  function ThenLevel(u1: UpdateLevel, u2: UpdateLevel): UpdateLevel
  {
    UpdateLevel(if u2.level.Some? then u2.level else u1.level,
                if u2.name.Some? then u2.name else u1.name,
                if u2.description.Some? then u2.description else u1.description)
  }

  lemma LevelUpdatesCompose(l: HskLevel, u1: UpdateLevel, u2: UpdateLevel)
    ensures ApplyLevelUpdate(ApplyLevelUpdate(l, u1), u2) == ApplyLevelUpdate(l, ThenLevel(u1, u2))
  {
  }

  /*** Vocabulary entries ***/

  datatype CreateVocabulary = CreateVocabulary(lessonId: int, hanzi: string, pinyin: string,
                                               meaningVn: string, audioUrl: Option<string>,
                                               strokeOrderSvg: Option<string>,
                                               exampleHanzi: Option<string>,
                                               exampleMeaning: Option<string>)

  datatype UpdateVocabulary = UpdateVocabulary(lessonId: Option<int>, hanzi: Option<string>,
                                               pinyin: Option<string>, meaningVn: Option<string>,
                                               audioUrl: Option<string>,
                                               strokeOrderSvg: Option<string>,
                                               exampleHanzi: Option<string>,
                                               exampleMeaning: Option<string>)

  function NewVocabulary(id: int, d: CreateVocabulary): Vocabulary
  {
    Vocabulary(id, d.lessonId, d.hanzi, d.pinyin, d.meaningVn, d.audioUrl, d.strokeOrderSvg,
               d.exampleHanzi, d.exampleMeaning)
  }

  function VocabularyData(v: Vocabulary): CreateVocabulary
  {
    CreateVocabulary(v.lessonId, v.hanzi, v.pinyin, v.meaningVn, v.audioUrl, v.strokeOrderSvg,
                     v.exampleHanzi, v.exampleMeaning)
  }

  lemma NewVocabularyStoresData(id: int, d: CreateVocabulary)
    ensures NewVocabulary(id, d).id == id
    ensures VocabularyData(NewVocabulary(id, d)) == d
  {
  }

  /** A supplied optional column replaces the stored one; an absent one keeps it. */
  function Overwrite<T>(supplied: Option<T>, stored: Option<T>): (r: Option<T>)
    ensures supplied.Some? ==> r == supplied
    ensures supplied.None? ==> r == stored
  {
    if supplied.Some? then supplied else stored
  }

  function ApplyVocabularyUpdate(v: Vocabulary, u: UpdateVocabulary): (r: Vocabulary)
    ensures r.id == v.id
    ensures u.lessonId.Some? ==> r.lessonId == u.lessonId.value
    ensures u.lessonId.None? ==> r.lessonId == v.lessonId
    ensures u.hanzi.Some? ==> r.hanzi == u.hanzi.value
    ensures u.hanzi.None? ==> r.hanzi == v.hanzi
    ensures u.pinyin.Some? ==> r.pinyin == u.pinyin.value
    ensures u.pinyin.None? ==> r.pinyin == v.pinyin
    ensures u.meaningVn.Some? ==> r.meaningVn == u.meaningVn.value
    ensures u.meaningVn.None? ==> r.meaningVn == v.meaningVn
    ensures u.audioUrl.Some? ==> r.audioUrl == u.audioUrl
    ensures u.audioUrl.None? ==> r.audioUrl == v.audioUrl
    ensures u.strokeOrderSvg.Some? ==> r.strokeOrderSvg == u.strokeOrderSvg
    ensures u.strokeOrderSvg.None? ==> r.strokeOrderSvg == v.strokeOrderSvg
    ensures u.exampleHanzi.Some? ==> r.exampleHanzi == u.exampleHanzi
    ensures u.exampleHanzi.None? ==> r.exampleHanzi == v.exampleHanzi
    ensures u.exampleMeaning.Some? ==> r.exampleMeaning == u.exampleMeaning
    ensures u.exampleMeaning.None? ==> r.exampleMeaning == v.exampleMeaning
  {
    Vocabulary(v.id, u.lessonId.GetOr(v.lessonId), u.hanzi.GetOr(v.hanzi), u.pinyin.GetOr(v.pinyin),
               u.meaningVn.GetOr(v.meaningVn), Overwrite(u.audioUrl, v.audioUrl),
               Overwrite(u.strokeOrderSvg, v.strokeOrderSvg), Overwrite(u.exampleHanzi, v.exampleHanzi),
               Overwrite(u.exampleMeaning, v.exampleMeaning))
  }

  const NoVocabularyChange := UpdateVocabulary(None, None, None, None, None, None, None, None)

  lemma EmptyVocabularyUpdate(v: Vocabulary)
    ensures ApplyVocabularyUpdate(v, NoVocabularyChange) == v
  {
  }

  lemma VocabularyUpdateIdempotent(v: Vocabulary, u: UpdateVocabulary)
    ensures ApplyVocabularyUpdate(ApplyVocabularyUpdate(v, u), u) == ApplyVocabularyUpdate(v, u)
  {
  }

  /*** Dialogue lines ***/

  datatype CreateDialogueLine = CreateDialogueLine(lessonId: int, roleName: string,
                                                   avatarUrl: Option<string>, contentHanzi: string,
                                                   contentPinyin: string, meaningVn: string,
                                                   audioUrl: Option<string>, orderIndex: int)

  datatype UpdateDialogueLine = UpdateDialogueLine(lessonId: Option<int>, roleName: Option<string>,
                                                   avatarUrl: Option<string>,
                                                   contentHanzi: Option<string>,
                                                   contentPinyin: Option<string>,
                                                   meaningVn: Option<string>,
                                                   audioUrl: Option<string>, orderIndex: Option<int>)

  function NewDialogueLine(id: int, d: CreateDialogueLine): DialogueLine
  {
    DialogueLine(id, d.lessonId, d.roleName, d.avatarUrl, d.contentHanzi, d.contentPinyin,
                 d.meaningVn, d.audioUrl, d.orderIndex)
  }

  function DialogueLineData(l: DialogueLine): CreateDialogueLine
  {
    CreateDialogueLine(l.lessonId, l.roleName, l.avatarUrl, l.contentHanzi, l.contentPinyin,
                       l.meaningVn, l.audioUrl, l.orderIndex)
  }

  lemma NewDialogueLineStoresData(id: int, d: CreateDialogueLine)
    ensures NewDialogueLine(id, d).id == id
    ensures DialogueLineData(NewDialogueLine(id, d)) == d
  {
  }

  function ApplyDialogueLineUpdate(l: DialogueLine, u: UpdateDialogueLine): (r: DialogueLine)
    ensures r.id == l.id
    ensures u.lessonId.Some? ==> r.lessonId == u.lessonId.value
    ensures u.lessonId.None? ==> r.lessonId == l.lessonId
    ensures u.roleName.Some? ==> r.roleName == u.roleName.value
    ensures u.roleName.None? ==> r.roleName == l.roleName
    ensures u.avatarUrl.Some? ==> r.avatarUrl == u.avatarUrl
    ensures u.avatarUrl.None? ==> r.avatarUrl == l.avatarUrl
    ensures u.contentHanzi.Some? ==> r.contentHanzi == u.contentHanzi.value
    ensures u.contentHanzi.None? ==> r.contentHanzi == l.contentHanzi
    ensures u.contentPinyin.Some? ==> r.contentPinyin == u.contentPinyin.value
    ensures u.contentPinyin.None? ==> r.contentPinyin == l.contentPinyin
    ensures u.meaningVn.Some? ==> r.meaningVn == u.meaningVn.value
    ensures u.meaningVn.None? ==> r.meaningVn == l.meaningVn
    ensures u.audioUrl.Some? ==> r.audioUrl == u.audioUrl
    ensures u.audioUrl.None? ==> r.audioUrl == l.audioUrl
    ensures u.orderIndex.Some? ==> r.orderIndex == u.orderIndex.value
    ensures u.orderIndex.None? ==> r.orderIndex == l.orderIndex
  {
    DialogueLine(l.id, u.lessonId.GetOr(l.lessonId), u.roleName.GetOr(l.roleName),
                 Overwrite(u.avatarUrl, l.avatarUrl), u.contentHanzi.GetOr(l.contentHanzi),
                 u.contentPinyin.GetOr(l.contentPinyin), u.meaningVn.GetOr(l.meaningVn),
                 Overwrite(u.audioUrl, l.audioUrl), u.orderIndex.GetOr(l.orderIndex))
  }

  const NoDialogueLineChange := UpdateDialogueLine(None, None, None, None, None, None, None, None)

  lemma EmptyDialogueLineUpdate(l: DialogueLine)
    ensures ApplyDialogueLineUpdate(l, NoDialogueLineChange) == l
  {
  }

  lemma DialogueLineUpdateIdempotent(l: DialogueLine, u: UpdateDialogueLine)
    ensures ApplyDialogueLineUpdate(ApplyDialogueLineUpdate(l, u), u) == ApplyDialogueLineUpdate(l, u)
  {
  }

  /** An update that supplies every field replaces all data columns by the supplied ones. */
  function FullDialogueLineUpdate(d: CreateDialogueLine): UpdateDialogueLine
  {
    UpdateDialogueLine(Some(d.lessonId), Some(d.roleName), d.avatarUrl, Some(d.contentHanzi),
                       Some(d.contentPinyin), Some(d.meaningVn), d.audioUrl, Some(d.orderIndex))
  }

  lemma FullDialogueLineUpdateReplaces(l: DialogueLine, d: CreateDialogueLine)
    requires d.avatarUrl.Some? && d.audioUrl.Some?
    ensures ApplyDialogueLineUpdate(l, FullDialogueLineUpdate(d)) == NewDialogueLine(l.id, d)
  {
  }
}
