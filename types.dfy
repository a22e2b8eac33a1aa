/** The entities of the campus dating demo (types.ts): users, matches,
    messages, swipe actions and the two fixed lists of courses and interests. */
module Types {

  datatype Option<+T> = None | Some(value: T)

  datatype Role = Student | Teacher | Staff

  datatype Gender = Male | Female | NonBinary | Other

  /** The four class shifts a user can attend. */
  datatype Shift = Matutino | Vespertino | Noturno | Integral

  /** What a user is looking for; also the optional kind of a match. */
  datatype Intention = StudyDate | Barzinho | Match

  /** The three actions a swipe can record. */
  datatype SwipeKind = Like | Pass | Study

  /** The three kinds a chat message can have. */
  datatype MessageKind = Text | Image | Icebreaker

  /** A profile. `course` and `semester` are optional (staff have none). */
  datatype User = User(
    id: string,
    email: string,
    name: string,
    age: int,
    course: Option<string>,
    semester: Option<int>,
    role: Role,
    bio: string,
    photos: seq<string>,
    interests: seq<string>,
    gender: Gender,
    verified: bool,
    shift: Shift,
    intention: Intention)

  /** A match always joins exactly two user ids: the pair type says so. */
  datatype Match = Match(
    id: string,
    users: (string, string),
    timestamp: int,
    lastMessage: Option<string>,
    lastMessageTime: Option<int>,
    unreadCount: int,
    kind: Option<Intention>)

  datatype Message = Message(
    id: string,
    matchId: string,
    senderId: string,
    content: string,
    timestamp: int,
    isRead: bool,
    kind: MessageKind)

  datatype SwipeAction = SwipeAction(
    fromUserId: string,
    toUserId: string,
    action: SwipeKind,
    timestamp: int)

  /** JavaScript's truthiness test on an optional string: absent and "" are both falsy. */
  predicate Present(s: Option<string>)
  {
    s.Some? && s.value != ""
  }

  predicate Distinct<T(==)>(s: seq<T>)
  {
    forall i, j :: 0 <= i < j < |s| ==> s[i] != s[j]
  }

  /** The official course list of the institution. */
  const Courses: seq<string> := [
    "Administração",
    "Agronomia",
    "Bacharelado em Sistema de Informação",
    "Biomedicina",
    "Ciências Contábeis",
    "Direito",
    "Enfermagem",
    "Farmácia",
    "Fisioterapia",
    "Medicina Veterinária",
    "Pedagogia",
    "Psicologia"
  ]

  /** The interest tags offered by the filter screen. */
  const Interests: seq<string> := [
    "Barzinho pós-aula", "Atlética", "Jogos Universitários", "Semana Acadêmica",
    "Estágio", "Iniciação Científica", "Monitoria", "Horas Complementares",
    "Trote Solidário", "Xerox", "Cantina", "Biblioteca",
    "Academia", "Netflix", "Viagem", "Pets", "Festa", "Games", "Música Sertaneja",
    "Rock", "Pagode", "Cerveja", "Tereré", "Café", "Natureza"
  ]

  lemma CoursesAreDistinct()
    ensures |Courses| == 12 && Distinct(Courses)
  {
  }

  lemma InterestsAreDistinct()
    ensures |Interests| == 25 && Distinct(Interests)
  {
  }
}
