/**
 * The subject and organ-system lists offered when study material is loaded,
 * and the guard that asks the user to pick both before uploading.
 */
module Catalog {

  /** Subjects, with the placeholder entry first. */
  const Materias: seq<string> := [
    "Seleccionar Materia", "Anatomía", "Fisiología", "Bioquímica", "Histología",
    "Embriología", "Microbiología", "Parasitología", "Farmacología",
    "Patología", "Semiología", "Medicina Interna", "Pediatría", "Neurología", "Cirugía",
    "Ginecología/Obstetricia", "Otra"]

  /**
   * Organ systems: the keys of the icon-and-colour table in their declaration order,
   * so the placeholder entry comes LAST.
   */
  const Sistemas: seq<string> := [
    "Cardiovascular", "Respiratorio", "Nervioso Central", "Nervioso Periférico", "Digestivo",
    "Renal (Urinario)", "Musculoesquelético", "Endocrino", "Hematológico", "Inmunológico",
    "Reproductivo", "General", "Otro", "Seleccionar Sistema"]

  const MateriaPlaceholder: string := "Seleccionar Materia"
  const SistemaPlaceholder: string := "Seleccionar Sistema"

  /**
   * The guard as written: it compares the system with the FIRST entry of `Sistemas`,
   * which is a real system, not the placeholder.
   */
  function UploadBlockedAsWritten(materia: string, sistema: string): (b: bool)
    ensures b <==> materia == "Seleccionar Materia" || sistema == "Cardiovascular"
  {
    materia == Materias[0] || sistema == Sistemas[0]
  }

  /** As written, the guard blocks a user who chose Cardiovascular and lets the placeholder through. */
  lemma AsWrittenBlocksCardiovascular()
    ensures UploadBlockedAsWritten("Anatomía", "Cardiovascular")
    ensures !UploadBlockedAsWritten("Anatomía", "Seleccionar Sistema")
  {
  }

  /** The guard as intended: blocked exactly while either choice is still its placeholder. */
  function UploadBlocked(materia: string, sistema: string): (b: bool)
    ensures b <==> materia == Materias[0] || sistema == Sistemas[|Sistemas| - 1]
  {
    materia == MateriaPlaceholder || sistema == SistemaPlaceholder
  }

  /**
   * With choices taken from the two lists, the intended guard blocks exactly the placeholders:
   * every real subject and every real system, Cardiovascular included, is accepted.
   */
  lemma UploadBlockedOnlyOnPlaceholders(i: nat, j: nat)
    requires 0 < i < |Materias| && j < |Sistemas|
    ensures UploadBlocked(Materias[i], Sistemas[j]) <==> j == |Sistemas| - 1
  {
  }
}
