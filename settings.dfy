/** The search settings: the parameter records the modelled operations
    read, with the program's default values. */
module Settings {

  /** Settings of contour construction and of the particle registry. */
  datatype ContourParameters = ContourParameters(
    nbPoints: int,    // number of rays cast when building a contour
    distTol: real,    // fraction of the summed radii below which two particles overlap
    circTol: real,    // least circularity of an accepted particle
    sharpness: real,  // sharpness of the circle mask applied before ray casting
    radialTol: real,  // least grid value accepted by a ray
    nbTol: real       // least fraction of nbPoints a contour must have
  )

  const DefaultContourParameters := ContourParameters(35, 0.8, 0.9, 0.7, 0.5, 0.8)

  /** Settings of template matching. */
  datatype MatchParameters = MatchParameters(
    sharpness: real,  // sharpness of the preliminary circle template
    tolerance: real,  // fraction of the match threshold a maximum must reach
    factor: real,     // size of a picture, as a multiple of the radius
    maxDim: int       // largest image dimension before downscaling
  )

  const DefaultMatchParameters := MatchParameters(0.7, 0.8, 1.2, 1080)

  /** One search: a particle radius in pixels, a number of refining
      iterations after the preliminary search, and whether colour
      differences are used. */
  datatype Search = Search(
    searchedRadius: real,
    iterations: int,
    useColorDifferences: bool,
    matchPara: MatchParameters,
    contourPara: ContourParameters
  )

}
