/**
 * The database rows the modelled code reads. Only the columns it uses are kept.
 */
module Entities {

  /** A dose taken: the medication, the instant (epoch milliseconds) and the free-text amount. */
  datatype MedicationLog = MedicationLog(id: int, medicationId: int, takenAt: int, amount: string)

  /**
   * A medication. `nickname` exists only in the newer schema; rows of the older one
   * carry the empty nickname, which the older widget never reads.
   */
  datatype Medication = Medication(id: int, name: string, nickname: string, dosage: string)
}
