/** The question bank of the first category (`obtenerPreguntasCategoria1`): Git basics. */
module QuizBank {
  import opened Wrappers
  import opened Quiz

  /** Every question offers `n` options and its right index is one of them. */
  predicate WellFormed(qs: seq<Question>, n: nat) {
    forall k :: 0 <= k < |qs| ==> |qs[k].options| == n && 0 <= qs[k].correct < n
  }

  function Bank(): (qs: seq<Question>)
    ensures |qs| == 10
    ensures WellFormed(qs, 4)
  {
    [ Question("¿Qué comando se usa para iniciar un repositorio Git?", "c1p1",
               ["git start", "git init", "git begin", "git create"], 1),
      Question("¿Cómo se llaman los cambios que aún no has guardado en Git?", "c1p2",
               ["Commits", "Pushes", "Staged", "Unstaged"], 3),
      Question("¿Qué comando se usa para guardar los cambios localmente?", "c1p3",
               ["git push", "git commit", "git pull", "git status"], 1),
      Question("¿Qué comando sube tus cambios al repositorio remoto?", "c1p4",
               ["git fetch", "git push", "git clone", "git merge"], 1),
      Question("¿Cómo se llama la copia local de un repositorio remoto?", "c1p5",
               ["Branch", "Clone", "Fork", "Commit"], 1),
      Question("¿Qué comando muestra el estado de tus archivos?", "c1p6",
               ["git status", "git log", "git diff", "git branch"], 0),
      Question("¿Cómo se llama una versión paralela del repositorio para trabajar?", "c1p7",
               ["Fork", "Branch", "Clone", "Commit"], 1),
      Question("¿Qué comando combina cambios de una rama a otra?", "c1p8",
               ["git merge", "git rebase", "git pull", "git push"], 0),
      Question("¿Qué archivo contiene la configuración para ignorar archivos?", "c1p9",
               [".gitignore", "README.md", "LICENSE", ".gitconfig"], 0),
      Question("¿Qué comando se usa para descargar un repositorio remoto por primera vez?", "c1p10",
               ["git pull", "git fetch", "git clone", "git init"], 2) ]
  }

  /**
   * A learner who picks the right option every time ends on the final
   * screen with all ten points and the top feedback tier.
   */
  lemma PerfectRun(qs: seq<Question>)
    requires qs == Bank()
    ensures Play(qs, Start, AnswerKey(qs)).finished
    ensures Valid(qs, Play(qs, Start, AnswerKey(qs))) &&
            SummaryOf(qs, Play(qs, Start, AnswerKey(qs))) == Some(Summary(10, 10, WellDone, FeedbackText(WellDone)))
  {
    PerfectPlay(qs);
  }
}
