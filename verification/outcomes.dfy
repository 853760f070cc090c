/** The result of inverting a matrix: singular, or regular with its inverse. */
module Outcomes {

  datatype Inversion<+T> = Singular | Regular(value: T)
}
