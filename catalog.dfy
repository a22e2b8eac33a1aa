/** The read-only profile catalog and the default local profile (constants.ts). */
module Catalog {
  import opened Types

  /** The six mock candidates, in catalog order. */
  const MockUsers: seq<User> := [
    User("user_2", "ana.silva@iesgo.edu.br", "Ana Silva", 21, Some("Direito"), Some(4), Student,
      "Futura advogada. OAB é o foco, mas o barzinho na sexta é sagrado. ⚖️🍷",
      ["https://picsum.photos/400/600?random=1", "https://picsum.photos/400/600?random=2"],
      ["Direito Penal", "Atlética", "Vinho", "Barzinho pós-aula", "Netflix"],
      Female, true, Noturno, Intention.Match),
    User("user_3", "marcos.oliveira@iesgo.edu.br", "Marcos Oliveira", 23, Some("Agronomia"), Some(7), Student,
      "Do campo pra cidade. Tereré, sertanejo e muita técnica. 🚜🌾",
      ["https://picsum.photos/400/600?random=3", "https://picsum.photos/400/600?random=4"],
      ["Sertanejo", "Tereré", "Churrasco", "Pecuária", "Natureza"],
      Male, true, Matutino, Barzinho),
    User("user_4", "julia.santos@gmail.com", "Júlia Santos", 20, Some("Biomedicina"), Some(2), Student,
      "Caloura sofrendo com lista de material. Alguém pra dividir o prejuízo? 🦷✨",
      ["https://picsum.photos/400/600?random=5"],
      ["Festas", "Viagem", "Estética", "Instagram", "Trote Solidário"],
      Female, false, Integral, StudyDate),
    User("user_5", "lucas.pereira@iesgo.edu.br", "Lucas Pereira", 25, Some("Medicina Veterinária"), Some(9), Student,
      "Quase formando. Se seu cachorro late, a gente já se entende. 🐶🩺",
      ["https://picsum.photos/400/600?random=6"],
      ["Pets", "Cirurgia Vet", "Cavalos", "Futebol", "Cerveja"],
      Male, true, Integral, Intention.Match),
    User("user_6", "fernanda.costa@iesgo.edu.br", "Fernanda Costa", 22, Some("Psicologia"), Some(5), Student,
      "Freud explica, mas eu prefiro um café. Buscando conexões reais. 🧠☕",
      ["https://picsum.photos/400/600?random=7"],
      ["Leitura", "Psicanálise", "Café", "Indie", "Museus"],
      Female, true, Noturno, StudyDate),
    User("user_7", "rodrigo.mendes@iesgo.edu.br", "Rodrigo Mendes", 24, Some("Bacharelado em Sistema de Informação"), Some(8), Student,
      "Calculadora na mão e capacete na cabeça. Bora construir algo juntos? 🏗️",
      ["https://picsum.photos/400/600?random=8"],
      ["Academia", "Obras", "Games", "Churrasco", "Rock"],
      Male, false, Noturno, Barzinho)
  ]

  /** The profile every login starts from (with the typed email substituted). */
  const InitialUser: User :=
    User("me", "usuario.exemplo@gmail.com", "Você", 22, Some("Administração"), Some(3), Student,
      "Estudante da IESGO procurando novas amizades e quem sabe algo mais.",
      ["https://picsum.photos/400/600?random=99"],
      ["Empreendedorismo", "Festas", "Networking"],
      Male, false, Noturno, Intention.Match)

  /** The reserved id of the local user; only this user gets automatic replies. */
  const LocalUserId: string := "me"

  lemma MockIdsDistinctAndNotLocal()
    ensures |MockUsers| == 6
    ensures forall i, j :: 0 <= i < j < |MockUsers| ==> MockUsers[i].id != MockUsers[j].id
    ensures forall i :: 0 <= i < |MockUsers| ==> MockUsers[i].id != LocalUserId
  {
  }

  lemma EveryProfileHasAPhoto()
    ensures forall i :: 0 <= i < |MockUsers| ==> |MockUsers[i].photos| >= 1
    ensures |InitialUser.photos| >= 1
  {
  }

  lemma EveryCourseIsOfficial()
    ensures forall i :: 0 <= i < |MockUsers| ==> MockUsers[i].course.Some? && MockUsers[i].course.value in Courses
    ensures InitialUser.course.Some? && InitialUser.course.value in Courses
  {
  }

  lemma InitialUserFacts()
    ensures InitialUser.id == LocalUserId && !InitialUser.verified
  {
  }
}
