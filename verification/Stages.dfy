/** The two programmable stages of the GL back end. */
module Stages {
  datatype Stage = VertexStage | PixelStage
}
